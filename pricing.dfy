/**
 * The cart pricer: each summary entry is resolved through the code lookup;
 * entries whose code does not resolve are dropped; a resolved entry becomes a
 * line priced at unit price times quantity, and the total is the sum of the
 * lines.
 */
module Pricing {
  import opened Wrappers
  import opened Catalog
  import opened Lookup
  import opened Cart

  /** One line of the cart view or of the operator's request. */
  datatype Line = Line(code: Code, name: string, price: int, qty: nat, amount: int)

  /** The line a summary entry yields against the live catalogue, if any. */
  function LineFor(t: Tally, catalogue: seq<Item>): seq<Line> {
    match Find(catalogue, t.code)
    case None => []
    case Some(it) => [Line(t.code, it.name, it.price, t.qty, it.price * t.qty)]
  }

  function PricedLines(summary: seq<Tally>, catalogue: seq<Item>): seq<Line> {
    if summary == [] then []
    else LineFor(summary[0], catalogue) + PricedLines(summary[1..], catalogue)
  }

  function Total(lines: seq<Line>): int {
    if lines == [] then 0 else lines[0].amount + Total(lines[1..])
  }

  /** The price one unit of `c` adds to the cart: 0 when `c` does not resolve. */
  function UnitPrice(catalogue: seq<Item>, c: Code): int {
    match Find(catalogue, c)
    case None => 0
    case Some(it) => it.price
  }

  /** The cart's worth counted code by code, one term per occurrence. */
  function CartValue(cart: seq<Code>, catalogue: seq<Item>): int {
    if cart == [] then 0
    else
      var n := |cart| - 1;
      CartValue(cart[..n], catalogue) + UnitPrice(catalogue, cart[n])
  }

  lemma {:induction false} PricedLinesAppend(a: seq<Tally>, b: seq<Tally>, catalogue: seq<Item>)
    ensures PricedLines(a + b, catalogue) == PricedLines(a, catalogue) + PricedLines(b, catalogue)
  {
    if a != [] {
      assert (a + b)[1..] == a[1..] + b;
      PricedLinesAppend(a[1..], b, catalogue);
    } else {
      assert a + b == b;
    }
  }

  lemma {:induction false} TotalAppend(a: seq<Line>, b: seq<Line>)
    ensures Total(a + b) == Total(a) + Total(b)
  {
    if a != [] {
      assert (a + b)[1..] == a[1..] + b;
      TotalAppend(a[1..], b);
    } else {
      assert a + b == b;
    }
  }

  /**
   * The body of the pricing loop once the entry's code has been looked up:
   * a resolved code adds its line and its price times quantity to the total;
   * an unresolved one adds nothing.
   */
  method AddLine(t: Tally, item: Option<Item>, lines: seq<Line>, total: int, ghost catalogue: seq<Item>)
    returns (lines': seq<Line>, total': int)
    requires item == Find(catalogue, t.code) && total == Total(lines)
    ensures lines' == lines + LineFor(t, catalogue)
    ensures total' == Total(lines') == total + UnitPrice(catalogue, t.code) * t.qty
  {
    lines', total' := lines, total;
    if item.Some? {
      var line := Line(t.code, item.value.name, item.value.price, t.qty, item.value.price * t.qty);
      lines' := lines + [line];
      total' := total + item.value.price * t.qty;
      TotalAppend(lines, [line]);
    } else {
      assert lines' == lines + [];
    }
  }

  /** Pricing one more summary entry appends its line and adds its amount. */
  lemma PricedPrefixStep(summary: seq<Tally>, i: nat, catalogue: seq<Item>)
    requires i < |summary|
    ensures PricedLines(summary[..i + 1], catalogue)
         == PricedLines(summary[..i], catalogue) + LineFor(summary[i], catalogue)
    ensures Total(PricedLines(summary[..i + 1], catalogue))
         == Total(PricedLines(summary[..i], catalogue)) + UnitPrice(catalogue, summary[i].code) * summary[i].qty
  {
    var t := summary[i];
    assert summary[..i + 1] == summary[..i] + [t];
    assert PricedLines([t], catalogue) == LineFor(t, catalogue) + PricedLines([], catalogue);
    PricedLinesAppend(summary[..i], [t], catalogue);
    TotalAppend(PricedLines(summary[..i], catalogue), LineFor(t, catalogue));
  }

  /**
   * A line priced against the catalogue: its code resolves, and it carries
   * that item's name and price and price times its quantity.
   */
  predicate PricedFrom(l: Line, catalogue: seq<Item>) {
    match Find(catalogue, l.code)
    case None => false
    case Some(it) => l.name == it.name && l.price == it.price && l.amount == it.price * l.qty
  }

  /**
   * Every line comes from a summary entry whose code resolves, with that
   * entry's quantity, and is priced against the catalogue.
   */
  lemma {:induction false} PricedLinesSound(summary: seq<Tally>, catalogue: seq<Item>)
    ensures forall k | 0 <= k < |PricedLines(summary, catalogue)| ::
      && Tally(PricedLines(summary, catalogue)[k].code, PricedLines(summary, catalogue)[k].qty) in summary
      && PricedFrom(PricedLines(summary, catalogue)[k], catalogue)
  {
    if summary != [] {
      var rest := summary[1..];
      PricedLinesSound(rest, catalogue);
      var head := LineFor(summary[0], catalogue);
      var tail := PricedLines(rest, catalogue);
      var lines := PricedLines(summary, catalogue);
      assert lines == head + tail;
      forall k | 0 <= k < |lines|
        ensures Tally(lines[k].code, lines[k].qty) in summary && PricedFrom(lines[k], catalogue)
      {
        if k < |head| {
          var it := Find(catalogue, summary[0].code).value;
          assert lines[k] == head[0] == Line(summary[0].code, it.name, it.price, summary[0].qty, it.price * summary[0].qty);
          assert summary[0] in summary;
        } else {
          var j := k - |head|;
          assert lines[k] == tail[j];
          assert 0 <= j < |tail|;
          assert Tally(tail[j].code, tail[j].qty) in rest && PricedFrom(tail[j], catalogue);
          assert Tally(tail[j].code, tail[j].qty) in summary;
        }
      }
    }
  }

  /** Some line of `lines` is for `code`. */
  predicate HasLine(lines: seq<Line>, code: Code) {
    exists k | 0 <= k < |lines| :: lines[k].code == code
  }

  /** A summary entry has a line exactly when its code resolves. */
  lemma {:induction false} PricedLinesComplete(summary: seq<Tally>, catalogue: seq<Item>, t: Tally)
    requires t in summary
    ensures HasLine(PricedLines(summary, catalogue), t.code) <==> Find(catalogue, t.code).Some?
  {
    var rest := summary[1..];
    var head := LineFor(summary[0], catalogue);
    var tail := PricedLines(rest, catalogue);
    var lines := PricedLines(summary, catalogue);
    assert lines == head + tail;
    if Find(catalogue, t.code).Some? {
      if t == summary[0] {
        assert lines[0].code == t.code;
      } else {
        assert t in rest;
        PricedLinesComplete(rest, catalogue, t);
        var k :| 0 <= k < |tail| && tail[k].code == t.code;
        assert lines[|head| + k].code == t.code;
      }
    } else {
      PricedLinesSound(summary, catalogue);
      assert forall k | 0 <= k < |lines| :: PricedFrom(lines[k], catalogue);
    }
  }

  /** Adding one unit of `c` to a summary adds `c`'s unit price to the total. */
  lemma {:induction false} TotalBump(summary: seq<Tally>, c: Code, catalogue: seq<Item>)
    ensures Total(PricedLines(Bump(summary, c), catalogue))
         == Total(PricedLines(summary, catalogue)) + UnitPrice(catalogue, c)
  {
    if summary == [] {
      assert PricedLines([Tally(c, 1)], catalogue) == LineFor(Tally(c, 1), catalogue) + PricedLines([], catalogue);
      TotalAppend(LineFor(Tally(c, 1), catalogue), []);
    } else {
      var t := summary[0];
      var rest := summary[1..];
      TotalAppend(LineFor(t, catalogue), PricedLines(rest, catalogue));
      if t.code == c {
        var t' := Tally(c, t.qty + 1);
        assert Bump(summary, c)[1..] == rest;
        TotalAppend(LineFor(t', catalogue), PricedLines(rest, catalogue));
        if Find(catalogue, c).Some? {
          var p := Find(catalogue, c).value.price;
          assert p * (t.qty + 1) == p * t.qty + p;
        }
      } else {
        assert Bump(summary, c)[1..] == Bump(rest, c);
        TotalBump(rest, c, catalogue);
        TotalAppend(LineFor(t, catalogue), PricedLines(Bump(rest, c), catalogue));
      }
    }
  }

  /**
   * The total shown for a cart equals the sum, over every code the cart holds
   * (counted with repetition), of that code's unit price, 0 for a code that
   * does not resolve.
   */
  lemma {:induction false} TotalIsCartValue(cart: seq<Code>, catalogue: seq<Item>)
    ensures Total(PricedLines(SummaryOf(cart), catalogue)) == CartValue(cart, catalogue)
  {
    if cart != [] {
      var n := |cart| - 1;
      TotalIsCartValue(cart[..n], catalogue);
      TotalBump(SummaryOf(cart[..n]), cart[n], catalogue);
    }
  }
}
