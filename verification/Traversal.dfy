/** Parsing a list element by element, stopping at the first failure. */
module Traversal {
  import opened Wrappers

  type ElementParser<!A, !B, !E> = (nat, A) -> Result<B, E>

  function ParseAll<A, B, E>(f: ElementParser<A, B, E>, s: seq<A>): (r: Result<seq<B>, E>)
    ensures r.Ok? ==> |r.value| == |s|
  {
    if s == [] then Ok([])
    else
      var n := |s| - 1;
      var init :- ParseAll(f, s[..n]);
      var last :- f(n, s[n]);
      Ok(init + [last])
  }

  /** One more element. */
  lemma ParseAllStep<A, B, E>(f: ElementParser<A, B, E>, s: seq<A>, i: nat)
    requires i < |s| && ParseAll(f, s[..i]).Ok?
    ensures ParseAll(f, s[..i + 1]) ==
            if f(i, s[i]).Ok? then Ok(ParseAll(f, s[..i]).value + [f(i, s[i]).value]) else Err(f(i, s[i]).error)
  {
    assert s[..i + 1][..i] == s[..i];
  }

  /** The first failure decides the result. */
  lemma {:induction false} FirstFailureDecides<A, B, E>(f: ElementParser<A, B, E>, s: seq<A>, i: nat)
    requires i <= |s| && ParseAll(f, s[..i]).Err?
    ensures ParseAll(f, s) == ParseAll(f, s[..i])
    decreases |s| - i
  {
    if i == |s| {
      assert s[..i] == s;
    } else {
      assert s[..i + 1][..i] == s[..i];
      FirstFailureDecides(f, s, i + 1);
    }
  }

  /** A list whose elements all parse is parsed to the list of their results. */
  lemma {:induction false} ParsesTo<A, B, E>(f: ElementParser<A, B, E>, s: seq<A>, t: seq<B>)
    requires |s| == |t|
    requires forall i :: 0 <= i < |s| ==> f(i, s[i]) == Ok(t[i])
    ensures ParseAll(f, s) == Ok(t)
  {
    if s != [] {
      var n := |s| - 1;
      ParsesTo(f, s[..n], t[..n]);
      assert f(n, s[n]) == Ok(t[n]);
      assert t == t[..n] + [t[n]];
    }
  }

  /** Every element of a parsed list was parsed at its position. */
  lemma {:induction false} ParsedElement<A, B, E>(f: ElementParser<A, B, E>, s: seq<A>, i: nat)
    requires ParseAll(f, s).Ok? && i < |s|
    ensures f(i, s[i]) == Ok(ParseAll(f, s).value[i])
  {
    var n := |s| - 1;
    if i < n {
      ParsedElement(f, s[..n], i);
    }
  }

  /** A list with an element that fails is not parsed. */
  lemma {:induction false} FailingElement<A, B, E>(f: ElementParser<A, B, E>, s: seq<A>, i: nat)
    requires i < |s| && f(i, s[i]).Err?
    ensures ParseAll(f, s).Err?
  {
    if i < |s| - 1 {
      FailingElement(f, s[..|s| - 1], i);
    }
  }
}
