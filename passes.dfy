/**
 * One pass of a cleaning rule over a table. Every rule of the transform either
 * rewrites a column (`df[col] = ...`, `fillna`, `replace`) or keeps the rows
 * that satisfy a condition (`dropna`, `df[df[col] > 0]`); both are a rule
 * `A -> Option<B>` applied to each row in order, `None` meaning the row is
 * dropped.
 */
module Passes {
  import opened Wrappers

  /** The rows `rule` keeps, rewritten by it, in their original order. */
  function FilterMap<A, B>(s: seq<A>, rule: A -> Option<B>): (r: seq<B>)
    ensures |r| <= |s|
  {
    if s == [] then []
    else
      var init := FilterMap(s[..|s| - 1], rule);
      match rule(s[|s| - 1])
      case None => init
      case Some(b) => init + [b]
  }

  /** Indices (ascending) of the rows that `rule` keeps. */
  function Kept<A, B>(s: seq<A>, rule: A -> Option<B>): (r: seq<nat>) {
    if s == [] then []
    else Kept(s[..|s| - 1], rule) + (if rule(s[|s| - 1]).Some? then [|s| - 1] else [])
  }

  /** Running `f` and then `g` on the rows `f` kept, as one rule. */
  function Then<A, B, C>(f: A -> Option<B>, g: B -> Option<C>): (rule: A -> Option<C>) {
    x => match f(x)
         case None => None
         case Some(y) => g(y)
  }

  /**
   * A pass creates no row and reorders none: its output is the subsequence of
   * its input at the ascending indices `Kept`, each row rewritten by the rule,
   * and every row the rule keeps is among them.
   */
  lemma {:induction false} FilterMapIsSubsequence<A, B>(s: seq<A>, rule: A -> Option<B>)
    ensures |Kept(s, rule)| == |FilterMap(s, rule)|
    ensures forall j :: 0 <= j < |Kept(s, rule)| ==>
              Kept(s, rule)[j] < |s| && rule(s[Kept(s, rule)[j]]) == Some(FilterMap(s, rule)[j])
    ensures forall j, k :: 0 <= j < k < |Kept(s, rule)| ==> Kept(s, rule)[j] < Kept(s, rule)[k]
    ensures forall i :: 0 <= i < |s| && rule(s[i]).Some? ==> i in Kept(s, rule)
  {
    if s != [] {
      var init := s[..|s| - 1];
      FilterMapIsSubsequence(init, rule);
      forall i | 0 <= i < |init| ensures init[i] == s[i] { }
    }
  }

  /** Every row of the output is the image of some input row under the rule. */
  lemma {:induction false} FilterMapFrom<A, B>(s: seq<A>, rule: A -> Option<B>, b: B)
    requires b in FilterMap(s, rule)
    ensures exists a :: a in s && rule(a) == Some(b)
  {
    var init := s[..|s| - 1];
    if b in FilterMap(init, rule) {
      FilterMapFrom(init, rule, b);
      var a :| a in init && rule(a) == Some(b);
      assert a in s;
    } else {
      assert rule(s[|s| - 1]) == Some(b);
    }
  }

  /** Two passes in a row are one pass of the composed rule. */
  lemma {:induction false} FilterMapFusion<A, B, C>(s: seq<A>, f: A -> Option<B>, g: B -> Option<C>)
    ensures FilterMap(FilterMap(s, f), g) == FilterMap(s, Then(f, g))
  {
    if s != [] {
      var init := s[..|s| - 1];
      FilterMapFusion(init, f, g);
      var mid := FilterMap(init, f);
      match f(s[|s| - 1])
      case None =>
      case Some(y) =>
        assert (mid + [y])[..|mid + [y]| - 1] == mid;
    }
  }

  /** A pass depends only on what the rule does to the rows it is given. */
  lemma {:induction false} FilterMapCongruent<A, B>(s: seq<A>, f: A -> Option<B>, g: A -> Option<B>)
    requires forall i :: 0 <= i < |s| ==> f(s[i]) == g(s[i])
    ensures FilterMap(s, f) == FilterMap(s, g)
  {
    if s != [] {
      var init := s[..|s| - 1];
      forall i | 0 <= i < |init| ensures f(init[i]) == g(init[i]) {
        assert init[i] == s[i];
      }
      FilterMapCongruent(init, f, g);
    }
  }

  /** A rule that keeps every row keeps the table's length. */
  lemma {:induction false} FilterMapTotal<A, B>(s: seq<A>, rule: A -> Option<B>)
    requires forall i :: 0 <= i < |s| ==> rule(s[i]).Some?
    ensures |FilterMap(s, rule)| == |s|
    ensures forall i :: 0 <= i < |s| ==> rule(s[i]) == Some(FilterMap(s, rule)[i])
  {
    if s != [] {
      var init := s[..|s| - 1];
      forall i | 0 <= i < |init| ensures rule(init[i]).Some? {
        assert init[i] == s[i];
      }
      FilterMapTotal(init, rule);
      forall i | 0 <= i < |s| ensures rule(s[i]) == Some(FilterMap(s, rule)[i]) {
        if i < |init| { assert init[i] == s[i]; }
      }
    }
  }

  /** One pass of `rule` over `rows`: the loop behind every column rewrite and row filter. */
  method ApplyPass<A, B>(rows: seq<A>, rule: A -> Option<B>) returns (out: seq<B>)
    ensures out == FilterMap(rows, rule)
  {
    out := [];
    var i := 0;
    while i < |rows|
      invariant 0 <= i <= |rows|
      invariant out == FilterMap(rows[..i], rule)
    {
      assert rows[..i + 1][..i] == rows[..i];
      match rule(rows[i]) {
        case Some(b) => out := out + [b];
        case None =>
      }
      i := i + 1;
    }
    assert rows[..|rows|] == rows;
  }
}
