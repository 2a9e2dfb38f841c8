/**
 * A user's cart is a list of product codes in which repetition is quantity.
 * This module holds the list operations the cart handlers use and the summary
 * of counts by code that the cart view and the checkout build.
 */
module Cart {
  import opened Catalog

  /** The position of the first occurrence of `x` in `s`. */
  function IndexOf(s: seq<Code>, x: Code): (i: nat)
    requires x in s
    ensures i < |s| && s[i] == x && x !in s[..i]
  {
    if s[0] == x then 0
    else
      var i := 1 + IndexOf(s[1..], x);
      assert s[..i] == [s[0]] + s[1..][..i - 1];
      i
  }

  /**
   * Python's `list.remove(x)` as the cart handlers guard it with `x in s`:
   * the list without its first occurrence of `x`, or the list unchanged when
   * `x` is absent.
   */
  function RemoveFirst(s: seq<Code>, x: Code): (r: seq<Code>)
    ensures x !in s ==> r == s
    ensures x in s ==> |r| == |s| - 1
    ensures multiset(r) == multiset(s) - multiset{x}
    ensures x in s ==> exists i | 0 <= i < |s| :: s[i] == x && x !in s[..i] && r == s[..i] + s[i + 1..]
  {
    if x in s then
      var i := IndexOf(s, x);
      assert s == s[..i] + [x] + s[i + 1..];
      s[..i] + s[i + 1..]
    else s
  }

  /** One entry of the summary: a code and how many times the cart holds it. */
  datatype Tally = Tally(code: Code, qty: nat)

  function Keys(summary: seq<Tally>): (ks: seq<Code>)
    ensures |ks| == |summary|
    ensures forall i | 0 <= i < |summary| :: ks[i] == summary[i].code
  {
    seq(|summary|, i requires 0 <= i < |summary| => summary[i].code)
  }

  /**
   * `summary[code] = summary.get(code, 0) + 1` on a dict kept in insertion
   * order: the entry for `c` goes up by one, or a new entry goes at the end.
   */
  function Bump(summary: seq<Tally>, c: Code): seq<Tally> {
    if summary == [] then [Tally(c, 1)]
    else if summary[0].code == c then [Tally(c, summary[0].qty + 1)] + summary[1..]
    else [summary[0]] + Bump(summary[1..], c)
  }

  /** The summary the loop over the cart builds. */
  function SummaryOf(cart: seq<Code>): seq<Tally> {
    if cart == [] then []
    else
      var n := |cart| - 1;
      Bump(SummaryOf(cart[..n]), cart[n])
  }

  predicate DistinctCodes(s: seq<Code>) {
    forall i, j | 0 <= i < j < |s| :: s[i] != s[j]
  }

  /** The codes of `s` without repetition, in order of first occurrence. */
  function Distinct(s: seq<Code>): (d: seq<Code>)
    ensures DistinctCodes(d)
    ensures forall c :: c in d <==> c in s
  {
    if s == [] then []
    else
      var n := |s| - 1;
      assert s == s[..n] + [s[n]];
      if s[n] in s[..n] then Distinct(s[..n]) else Distinct(s[..n]) + [s[n]]
  }

  /**
   * Bumping a summary with distinct codes raises the count of `c` by one and
   * leaves every other entry where and as it was.
   */
  lemma {:induction false} BumpEntries(summary: seq<Tally>, c: Code)
    requires DistinctCodes(Keys(summary))
    ensures var b := Bump(summary, c);
      && |b| == |summary| + (if c in Keys(summary) then 0 else 1)
      && (forall i | 0 <= i < |summary| ::
            b[i] == if summary[i].code == c then Tally(c, summary[i].qty + 1) else summary[i])
      && (c !in Keys(summary) ==> b[|summary|] == Tally(c, 1))
  {
    if summary != [] {
      var rest := summary[1..];
      assert Keys(summary) == [summary[0].code] + Keys(rest);
      forall i, j | 0 <= i < j < |rest| ensures Keys(rest)[i] != Keys(rest)[j] {
        assert Keys(rest)[i] == Keys(summary)[i + 1] && Keys(rest)[j] == Keys(summary)[j + 1];
      }
      if summary[0].code == c {
        forall k | 0 <= k < |rest| ensures Keys(rest)[k] != c {
          assert Keys(rest)[k] == Keys(summary)[k + 1];
        }
        assert Bump(summary, c) == [Tally(c, summary[0].qty + 1)] + rest;
      } else {
        BumpEntries(rest, c);
        assert Bump(summary, c) == [summary[0]] + Bump(rest, c);
        assert c in Keys(summary) <==> c in Keys(rest);
      }
    }
  }

  /**
   * The summary lists each code of the cart once, in order of first
   * occurrence, with the number of times the cart holds it.
   */
  lemma {:induction false} SummaryCounts(cart: seq<Code>)
    ensures var s := SummaryOf(cart);
      && |s| == |Distinct(cart)|
      && forall i | 0 <= i < |s| :: s[i] == Tally(Distinct(cart)[i], multiset(cart)[Distinct(cart)[i]])
  {
    if cart != [] {
      var n := |cart| - 1;
      var pre := cart[..n];
      var c := cart[n];
      assert cart == pre + [c];
      SummaryCounts(pre);
      var s := SummaryOf(pre);
      assert Keys(s) == Distinct(pre);
      BumpEntries(s, c);
    }
  }

  /** A summary with the counts of `Summarize` names exactly the codes of the cart. */
  lemma SummaryCodes(cart: seq<Code>, summary: seq<Tally>)
    requires |summary| == |Distinct(cart)|
    requires forall i | 0 <= i < |summary| ::
      summary[i] == Tally(Distinct(cart)[i], multiset(cart)[Distinct(cart)[i]])
    ensures forall c :: c in Keys(summary) <==> c in cart
  {
    assert Keys(summary) == Distinct(cart);
  }

  /** The summary-building loop of the cart view and of the checkout. */
  method Summarize(cart: seq<Code>) returns (summary: seq<Tally>)
    ensures summary == SummaryOf(cart)
    ensures |summary| == |Distinct(cart)|
    ensures forall i | 0 <= i < |summary| ::
      summary[i] == Tally(Distinct(cart)[i], multiset(cart)[Distinct(cart)[i]])
  {
    summary := [];
    for i := 0 to |cart|
      invariant summary == SummaryOf(cart[..i])
    {
      assert cart[..i + 1][..i] == cart[..i];
      summary := Bump(summary, cart[i]);
    }
    assert cart[..|cart|] == cart;
    SummaryCounts(cart);
  }
}
