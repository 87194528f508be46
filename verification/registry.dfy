/**
 The endpoint registry: the ordered list of user-defined endpoints that the
 store keeps. `Add` appends without any duplicate check and `Remove` drops every
 entry with the given url, keeping the others in their original order.
 */
module Registry {

  /** A named submission url; neither the name nor the url has to be unique. */
  datatype Endpoint = Endpoint(name: string, url: string)

  /** How many entries of `es` have url `u`. */
  function CountUrl(es: seq<Endpoint>, u: string): nat
    decreases |es|
  {
    if es == [] then 0
    else (if es[0].url == u then 1 else 0) + CountUrl(es[1..], u)
  }

  /** `add`: the new endpoint goes at the end, and nothing before it moves. */
  function Add(es: seq<Endpoint>, e: Endpoint): (r: seq<Endpoint>)
    ensures |r| == |es| + 1
    ensures r[..|es|] == es
    ensures r[|es|] == e
    ensures multiset(r) == multiset(es) + multiset{e}
  {
    es + [e]
  }

  /** `remove`: keeps exactly the entries whose url differs from `u`. */
  function Remove(es: seq<Endpoint>, u: string): (r: seq<Endpoint>)
    ensures forall i :: 0 <= i < |r| ==> r[i].url != u
    ensures |r| == |es| - CountUrl(es, u)
    decreases |es|
  {
    if es == [] then []
    else
      var rest := Remove(es[1..], u);
      assert es == [es[0]] + es[1..];
      if es[0].url == u then rest else [es[0]] + rest
  }

  /** Exactly the entries with another url survive, each as often as before. */
  lemma {:induction false} RemoveKeepsOthers(es: seq<Endpoint>, u: string)
    ensures forall e :: multiset(Remove(es, u))[e] == if e.url == u then 0 else multiset(es)[e]
    ensures forall e :: e in Remove(es, u) <==> e in es && e.url != u
    decreases |es|
  {
    if es != [] {
      var x, tail := es[0], es[1..];
      assert es == [x] + tail;
      RemoveKeepsOthers(tail, u);
      RemoveCons(x, tail, u);
    }
  }

  /** Removing distributes over concatenation; with the singleton cases this pins
      down the order of the survivors: they appear as they did in `a + b`. */
  lemma {:induction false} RemoveConcat(a: seq<Endpoint>, b: seq<Endpoint>, u: string)
    ensures Remove(a + b, u) == Remove(a, u) + Remove(b, u)
    decreases |a|
  {
    if a == [] {
      assert a + b == b;
    } else {
      var x, tail := a[0], a[1..];
      assert a == [x] + tail;
      assert a + b == [x] + (tail + b);
      RemoveConcat(tail, b, u);
      RemoveCons(x, tail + b, u);
      RemoveCons(x, tail, u);
    }
  }

  /** `remove` changes nothing exactly when no entry has the url. */
  lemma {:induction false} RemoveNoOp(es: seq<Endpoint>, u: string)
    ensures Remove(es, u) == es <==> CountUrl(es, u) == 0
    decreases |es|
  {
    if es != [] {
      var x, tail := es[0], es[1..];
      assert es == [x] + tail;
      RemoveNoOp(tail, u);
      RemoveCons(x, tail, u);
      if x.url == u {
        assert |Remove(es, u)| < |es|;
      } else {
        assert CountUrl(es, u) == CountUrl(tail, u);
        assert Remove(es, u) == es <==> Remove(tail, u) == tail;
      }
    }
  }

  /** Removing the same url twice is the same as removing it once. */
  lemma RemoveIdempotent(es: seq<Endpoint>, u: string)
    ensures Remove(Remove(es, u), u) == Remove(es, u)
  {
    var r := Remove(es, u);
    CountUrlZero(r, u);
    RemoveNoOp(r, u);
  }

  /** A url with no entry in the list is counted zero times. */
  lemma {:induction false} CountUrlZero(es: seq<Endpoint>, u: string)
    ensures CountUrl(es, u) == 0 <==> forall i :: 0 <= i < |es| ==> es[i].url != u
    decreases |es|
  {
    if es != [] {
      CountUrlZero(es[1..], u);
      assert forall i :: 1 <= i < |es| ==> es[i] == es[1..][i - 1];
    }
  }

  /** Removals of two urls commute. */
  lemma {:induction false} RemoveCommutes(es: seq<Endpoint>, u: string, v: string)
    ensures Remove(Remove(es, u), v) == Remove(Remove(es, v), u)
    decreases |es|
  {
    if es != [] {
      RemoveCommutes(es[1..], u, v);
      var x, tail := es[0], es[1..];
      RemoveCons(x, Remove(tail, u), v);
      RemoveCons(x, Remove(tail, v), u);
    }
  }

  /** One unfolding of `Remove` on a list given as head and tail. */
  lemma RemoveCons(x: Endpoint, tail: seq<Endpoint>, u: string)
    ensures Remove([x] + tail, u) == if x.url == u then Remove(tail, u) else [x] + Remove(tail, u)
  {
    assert ([x] + tail)[1..] == tail;
  }

  /** Removing after adding: the new entry is dropped or kept at the end by the
      same rule as every other entry. */
  lemma RemoveAfterAdd(es: seq<Endpoint>, e: Endpoint, u: string)
    ensures Remove(Add(es, e), u) == if e.url == u then Remove(es, u) else Add(Remove(es, u), e)
  {
    RemoveConcat(es, [e], u);
    assert Remove([e], u) == if e.url == u then [] else [e] by {
      assert [e] == [e] + [];
      RemoveCons(e, [], u);
    }
    if e.url == u {
      assert Remove(es, u) + [] == Remove(es, u);
    }
  }

  /** Removing the url of a just-added endpoint undoes the add, together with
      every earlier entry sharing that url. */
  lemma RemoveUndoesAdd(es: seq<Endpoint>, e: Endpoint)
    ensures Remove(Add(es, e), e.url) == Remove(es, e.url)
  {
    RemoveAfterAdd(es, e, e.url);
  }

  /** No deduplication: adding the same endpoint twice stores it twice. */
  lemma AddTwiceKeepsBoth(es: seq<Endpoint>, e: Endpoint)
    ensures |Add(Add(es, e), e)| == |es| + 2
    ensures Add(Add(es, e), e)[|es|] == Add(Add(es, e), e)[|es| + 1] == e
    ensures multiset(Add(Add(es, e), e))[e] == multiset(es)[e] + 2
  {
  }

  /** From an empty list, adding an endpoint and removing its url leaves the list empty. */
  lemma AddThenRemoveFromEmpty()
    ensures Add([], Endpoint("A", "http://x")) == [Endpoint("A", "http://x")]
    ensures Remove(Add([], Endpoint("A", "http://x")), "http://x") == []
  {
    RemoveUndoesAdd([], Endpoint("A", "http://x"));
  }
}
