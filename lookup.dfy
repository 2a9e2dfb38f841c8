/**
 * Reading the live catalogue: finding the first item with a given code, and
 * the case-insensitive name search.  Both work on the items of all categories
 * laid end to end in configuration order.
 */
module Lookup {
  import opened Wrappers
  import opened Catalog

  /** The first item whose code is `code`, or None when no item has it. */
  function Find(items: seq<Item>, code: Code): Option<Item> {
    if items == [] then None
    else if items[0].code == code then Some(items[0])
    else Find(items[1..], code)
  }

  /**
   * The lookup finds nothing exactly when no item has the code, and what it
   * finds is the first item that has it.
   */
  lemma {:induction false} FindSpec(items: seq<Item>, code: Code)
    ensures Find(items, code).None? <==> forall i | 0 <= i < |items| :: items[i].code != code
    ensures Find(items, code).Some? ==>
      exists i | 0 <= i < |items| ::
        && items[i] == Find(items, code).value
        && items[i].code == code
        && forall j | 0 <= j < i :: items[j].code != code
  {
    if items != [] && items[0].code != code {
      FindSpec(items[1..], code);
      assert forall j | 1 <= j < |items| :: items[j] == items[1..][j - 1];
      if Find(items, code).Some? {
        var i :| 0 <= i < |items[1..]| && items[1..][i] == Find(items, code).value && items[1..][i].code == code
          && forall j | 0 <= j < i :: items[1..][j].code != code;
        assert items[i + 1] == Find(items, code).value;
      }
    } else if items != [] {
      assert items[0] == Find(items, code).value;
    }
  }

  /** Scanning two lists in turn finds the first list's match, if any. */
  lemma {:induction false} FindAppend(a: seq<Item>, b: seq<Item>, code: Code)
    ensures Find(a + b, code) == if Find(a, code).Some? then Find(a, code) else Find(b, code)
  {
    if a != [] {
      assert (a + b)[1..] == a[1..] + b;
      FindAppend(a[1..], b, code);
    } else {
      assert a + b == b;
    }
  }

  /**
   * The early-return scan of one category's items for a code.
   */
  method ScanItems(items: seq<Item>, code: Code) returns (r: Option<Item>)
    ensures r == Find(items, code)
  {
    var j := 0;
    while j < |items|
      invariant 0 <= j <= |items|
      invariant forall k | 0 <= k < j :: items[k].code != code
    {
      if items[j].code == code {
        FindSpec(items, code);
        return Some(items[j]);
      }
      j := j + 1;
    }
    FindSpec(items, code);
    return None;
  }

  /**
   * Lower-casing of one character: the ASCII capitals and the capitals of the
   * Russian alphabet (U+0410..U+042F and U+0401); other characters unchanged.
   */
  function LowerChar(c: char): char {
    if 'A' <= c <= 'Z' then (c as int + 32) as char
    else if '\U{0410}' <= c <= '\U{042F}' then (c as int + 32) as char
    else if c == '\U{0401}' then '\U{0451}'
    else c
  }

  function Lower(s: string): (r: string)
    ensures |r| == |s|
    ensures forall i | 0 <= i < |s| :: r[i] == LowerChar(s[i])
  {
    if s == [] then [] else [LowerChar(s[0])] + Lower(s[1..])
  }

  predicate IsPrefix(p: string, s: string) {
    |p| <= |s| && s[..|p|] == p
  }

  /** Python's `p in s` on strings: `p` occurs somewhere in `s`. */
  predicate Contains(p: string, s: string)
    decreases |s|
  {
    IsPrefix(p, s) || (s != [] && Contains(p, s[1..]))
  }

  /** `p` occurs in `s` starting at offset `i`. */
  predicate OccursAt(p: string, s: string, i: int) {
    0 <= i && i + |p| <= |s| && s[i..i + |p|] == p
  }

  /** `p` occurs in `s` exactly when it is found at some offset. */
  lemma {:induction false} ContainsAt(p: string, s: string)
    ensures Contains(p, s) <==> exists i :: OccursAt(p, s, i)
    decreases |s|
  {
    if IsPrefix(p, s) {
      assert OccursAt(p, s, 0);
    } else if s == [] {
    } else {
      ContainsAt(p, s[1..]);
      if exists i :: OccursAt(p, s, i) {
        var i :| OccursAt(p, s, i);
        assert i != 0;
        assert s[1..][i - 1..i - 1 + |p|] == s[i..i + |p|];
        assert OccursAt(p, s[1..], i - 1);
      }
      if exists i :: OccursAt(p, s[1..], i) {
        var i :| OccursAt(p, s[1..], i);
        assert s[1..][i..i + |p|] == s[i + 1..i + 1 + |p|];
        assert OccursAt(p, s, i + 1);
      }
    }
  }

  /** The search test: the lower-cased query occurs in the lower-cased name. */
  predicate NameMatches(query: string, name: string) {
    Contains(Lower(query), Lower(name))
  }

  /** The items whose names match the query, in the order given. */
  function Matches(items: seq<Item>, query: string): (r: seq<Item>)
    ensures |r| <= |items|
  {
    if items == [] then []
    else
      var n := |items| - 1;
      Matches(items[..n], query) + Keep(items[n], query)
  }

  function Keep(it: Item, query: string): seq<Item> {
    if NameMatches(query, it.name) then [it] else []
  }

  /** Every item of the result is one of the items and its name matches. */
  lemma {:induction false} MatchesSound(items: seq<Item>, query: string)
    ensures forall it | it in Matches(items, query) :: it in items && NameMatches(query, it.name)
  {
    if items != [] {
      var n := |items| - 1;
      MatchesSound(items[..n], query);
      forall it | it in Matches(items, query)
        ensures it in items && NameMatches(query, it.name)
      {
        if it in Matches(items[..n], query) {
          var k :| 0 <= k < n && items[..n][k] == it;
          assert items[k] == it;
        }
      }
    }
  }

  /** Every item whose name matches is in the result. */
  lemma {:induction false} MatchesComplete(items: seq<Item>, query: string, it: Item)
    requires it in items && NameMatches(query, it.name)
    ensures it in Matches(items, query)
  {
    var n := |items| - 1;
    if items[n] != it {
      assert it in items[..n] by {
        var k :| 0 <= k < |items| && items[k] == it;
        assert k < n && items[..n][k] == it;
      }
      MatchesComplete(items[..n], query, it);
    }
  }

  /** Searching two lists in turn yields the two results one after the other. */
  lemma {:induction false} MatchesAppend(a: seq<Item>, b: seq<Item>, query: string)
    ensures Matches(a + b, query) == Matches(a, query) + Matches(b, query)
    decreases |b|
  {
    if b == [] {
      assert a + b == a;
    } else {
      var n := |b| - 1;
      var ab := a + b;
      assert ab[..|ab| - 1] == a + b[..n];
      assert ab[|ab| - 1] == b[n];
      calc {
        Matches(ab, query);
        Matches(a + b[..n], query) + Keep(b[n], query);
        { MatchesAppend(a, b[..n], query); }
        Matches(a, query) + Matches(b[..n], query) + Keep(b[n], query);
        Matches(a, query) + Matches(b, query);
      }
    }
  }

  /** The search ignores the letter case of the query and of the name. */
  lemma {:induction false} CaseIgnored(query: string, name: string)
    ensures NameMatches(Lower(query), name) == NameMatches(query, name)
    ensures NameMatches(query, Lower(name)) == NameMatches(query, name)
  {
    LowerTwice(query);
    LowerTwice(name);
  }

  /** Lower-casing twice is lower-casing once. */
  lemma {:induction false} LowerTwice(s: string)
    ensures Lower(Lower(s)) == Lower(s)
  {
    forall i | 0 <= i < |s| ensures Lower(Lower(s))[i] == Lower(s)[i] {
      var c := s[i];
      assert Lower(s)[i] == LowerChar(c);
    }
  }
}
