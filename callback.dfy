/**
 * The inline buttons' callback data: a text such as `add_<code>` that the
 * handlers route by prefix and read the code from with `data.split("_")[1]`.
 */
module Callback {
  import opened Catalog

  /** Python's `s.split(sep)` for a one-character separator. */
  function Split(s: string, sep: char): (parts: seq<string>)
    ensures |parts| >= 1
    ensures sep in s <==> |parts| > 1
  {
    if s == [] then [""]
    else
      assert s == [s[0]] + s[1..];
      var rest := Split(s[1..], sep);
      if s[0] == sep then [""] + rest
      else [[s[0]] + rest[0]] + rest[1..]
  }

  /**
   * Splitting yields one more part than the text has separators, and no part
   * contains the separator.
   */
  lemma {:induction false} SplitShape(s: string, sep: char)
    ensures |Split(s, sep)| == multiset(s)[sep] + 1
    ensures forall i | 0 <= i < |Split(s, sep)| :: sep !in Split(s, sep)[i]
  {
    if s != [] {
      var rest := Split(s[1..], sep);
      var parts := Split(s, sep);
      SplitShape(s[1..], sep);
      assert s == [s[0]] + s[1..];
      assert multiset(s)[sep] == multiset(s[1..])[sep] + (if s[0] == sep then 1 else 0);
      if s[0] == sep {
        assert parts == [""] + rest;
        assert forall i | 1 <= i < |parts| :: parts[i] == rest[i - 1];
      } else {
        assert parts == [[s[0]] + rest[0]] + rest[1..];
        assert forall i | 1 <= i < |parts| :: parts[i] == rest[i];
      }
    }
  }

  /** Python's `sep.join(parts)`. */
  function Join(parts: seq<string>, sep: char): string
    requires |parts| >= 1
  {
    if |parts| == 1 then parts[0] else parts[0] + [sep] + Join(parts[1..], sep)
  }

  /** Text put before the first part of a join goes before the whole join. */
  lemma JoinCons(x: string, parts: seq<string>, sep: char)
    requires |parts| >= 1
    ensures Join([x + parts[0]] + parts[1..], sep) == x + Join(parts, sep)
  {
    var q := [x + parts[0]] + parts[1..];
    if |parts| > 1 {
      assert q[1..] == parts[1..];
      assert Join(q, sep) == (x + parts[0]) + [sep] + Join(parts[1..], sep);
    }
  }

  /** Splitting and joining again gives back the text. */
  lemma {:induction false} JoinSplit(s: string, sep: char)
    ensures Join(Split(s, sep), sep) == s
  {
    if s != [] {
      var rest := Split(s[1..], sep);
      var parts := Split(s, sep);
      JoinSplit(s[1..], sep);
      assert s == [s[0]] + s[1..];
      if s[0] == sep {
        assert parts == [""] + rest;
        assert parts[1..] == rest;
        assert Join(parts, sep) == [sep] + Join(rest, sep);
      } else {
        assert parts == [[s[0]] + rest[0]] + rest[1..];
        JoinCons([s[0]], rest, sep);
      }
    }
  }

  /** Splitting text that starts with a separator-free `p` keeps `p` at the front. */
  lemma {:induction false} SplitPrefix(p: string, t: string, sep: char)
    requires sep !in p
    ensures Split(p + t, sep) == [p + Split(t, sep)[0]] + Split(t, sep)[1..]
  {
    if p != [] {
      assert (p + t)[1..] == p[1..] + t;
      SplitPrefix(p[1..], t, sep);
      assert [p[0]] + (p[1..] + Split(t, sep)[0]) == p + Split(t, sep)[0];
    } else {
      assert p + t == t;
      assert p + Split(t, sep)[0] == Split(t, sep)[0];
      assert Split(t, sep) == [Split(t, sep)[0]] + Split(t, sep)[1..];
    }
  }

  /** Joining separator-free parts and splitting again gives back the parts. */
  lemma {:induction false} SplitJoin(parts: seq<string>, sep: char)
    requires |parts| >= 1
    requires forall i | 0 <= i < |parts| :: sep !in parts[i]
    ensures Split(Join(parts, sep), sep) == parts
  {
    if |parts| == 1 {
      SplitPrefix(parts[0], "", sep);
      assert parts[0] + "" == parts[0];
    } else {
      var tail := Join(parts[1..], sep);
      SplitJoin(parts[1..], sep);
      assert parts[0] + [sep] + tail == parts[0] + ([sep] + tail);
      SplitPrefix(parts[0], [sep] + tail, sep);
      assert ([sep] + tail)[1..] == tail;
      assert parts[0] + "" == parts[0];
    }
  }

  /** What a button press asks for, by the handler its data reaches. */
  datatype Action =
    | AddItem(code: Code)
    | Increase(code: Code)
    | Decrease(code: Code)
    | SendRequest
    | RemoveItem(code: Code)
    | ClearCart
    | Unhandled

  predicate StartsWith(s: string, prefix: string) {
    |prefix| <= |s| && s[..|prefix|] == prefix
  }

  /** The second `_`-separated field: `data.split("_")[1]`. */
  function CodeField(data: string): string
    requires '_' in data
  {
    Split(data, '_')[1]
  }

  /**
   * The routing of callback data, in the order the handlers are registered:
   * prefix filters for the code-carrying actions, equality for the others.
   */
  function Decode(data: string): (a: Action)
    ensures a.AddItem? <==> StartsWith(data, "add_")
    ensures a.Increase? <==> StartsWith(data, "increase_")
    ensures a.Decrease? <==> StartsWith(data, "decrease_")
    ensures a.RemoveItem? <==> StartsWith(data, "remove_")
    ensures a.SendRequest? <==> data == "send_request"
    ensures a.ClearCart? <==> data == "clear_cart"
    ensures a.AddItem? || a.Increase? || a.Decrease? || a.RemoveItem? ==>
      '_' in data && a.code == Split(data, '_')[1]
  {
    if StartsWith(data, "add_") then
      assert data[3] == '_'; AddItem(CodeField(data))
    else if StartsWith(data, "increase_") then
      assert data[8] == '_'; Increase(CodeField(data))
    else if StartsWith(data, "decrease_") then
      assert data[8] == '_'; Decrease(CodeField(data))
    else if data == "send_request" then SendRequest
    else if StartsWith(data, "remove_") then
      assert data[6] == '_'; RemoveItem(CodeField(data))
    else if data == "clear_cart" then ClearCart
    else Unhandled
  }

  /** The callback data the keyboards attach to each action. */
  function Encode(a: Action): (data: string)
    ensures SameHandler(Decode(data), a)
  {
    match a
    case AddItem(c) => "add_" + c
    case Increase(c) => "increase_" + c
    case Decrease(c) => "decrease_" + c
    case SendRequest => "send_request"
    case RemoveItem(c) => "remove_" + c
    case ClearCart => "clear_cart"
    case Unhandled => "noop"
  }

  /** Both actions go to the same handler, whatever codes they carry. */
  predicate SameHandler(x: Action, y: Action) {
    && (x.AddItem? <==> y.AddItem?)
    && (x.Increase? <==> y.Increase?)
    && (x.Decrease? <==> y.Decrease?)
    && (x.RemoveItem? <==> y.RemoveItem?)
    && (x.SendRequest? <==> y.SendRequest?)
    && (x.ClearCart? <==> y.ClearCart?)
  }

  /** The field after the first `_` of `word + "_" + rest`, when `word` has none. */
  lemma FieldAfter(word: string, rest: string, code: string)
    requires '_' !in word && '_' !in code
    requires rest == code || StartsWith(rest, code + "_")
    ensures '_' in word + "_" + rest
    ensures CodeField(word + "_" + rest) == code
  {
    var data := word + "_" + rest;
    assert data[|word|] == '_';
    if rest == code {
      SplitJoin([word, code], '_');
      assert Join([word, code], '_') == data;
    } else {
      var tail := rest[|code| + 1..];
      assert rest == code + "_" + tail;
      assert data == word + ("_" + (code + ("_" + tail)));
      SplitPrefix(word, "_" + (code + ("_" + tail)), '_');
      SplitPrefix(code, "_" + tail, '_');
      assert ("_" + (code + ("_" + tail)))[1..] == code + ("_" + tail);
      assert ("_" + tail)[1..] == tail;
    }
  }

  /** Text whose character at `i` differs from the prefix's does not start with it. */
  lemma DiffersAt(s: string, prefix: string, i: nat)
    requires i < |prefix| && i < |s| && s[i] != prefix[i]
    ensures !StartsWith(s, prefix)
  {
  }

  /** The add button's data `add_<c>` decodes to adding `c`. */
  lemma DecodeAdd(c: string)
    requires '_' !in c
    ensures Decode("add_" + c) == AddItem(c)
  {
    assert "add_" + c == "add" + "_" + c;
    FieldAfter("add", c, c);
    assert ("add_" + c)[..4] == "add_";
  }

  lemma DecodeIncrease(c: string)
    requires '_' !in c
    ensures Decode("increase_" + c) == Increase(c)
  {
    var data := "increase_" + c;
    assert data == "increase" + "_" + c;
    FieldAfter("increase", c, c);
    assert data[..9] == "increase_";
    DiffersAt(data, "add_", 0);
  }

  lemma DecodeDecrease(c: string)
    requires '_' !in c
    ensures Decode("decrease_" + c) == Decrease(c)
  {
    var data := "decrease_" + c;
    assert data == "decrease" + "_" + c;
    FieldAfter("decrease", c, c);
    assert data[..9] == "decrease_";
    DiffersAt(data, "add_", 0);
    DiffersAt(data, "increase_", 0);
  }

  lemma DecodeRemove(c: string)
    requires '_' !in c
    ensures Decode("remove_" + c) == RemoveItem(c)
  {
    var data := "remove_" + c;
    assert data == "remove" + "_" + c;
    FieldAfter("remove", c, c);
    assert data[..7] == "remove_";
    DiffersAt(data, "add_", 0);
    DiffersAt(data, "increase_", 0);
    DiffersAt(data, "decrease_", 0);
    assert data != "send_request" by { assert data[0] != "send_request"[0]; }
  }

  /** A code without `_` survives the round trip through a button. */
  lemma DecodeEncode(a: Action)
    requires a.AddItem? || a.Increase? || a.Decrease? || a.RemoveItem? ==> '_' !in a.code
    ensures Decode(Encode(a)) == a
  {
    var data := Encode(a);
    match a
    case AddItem(c) => DecodeAdd(c);
    case Increase(c) => DecodeIncrease(c);
    case Decrease(c) => DecodeDecrease(c);
    case RemoveItem(c) => DecodeRemove(c);
    case SendRequest =>
      DiffersAt(data, "add_", 0);
      DiffersAt(data, "increase_", 0);
      DiffersAt(data, "decrease_", 0);
    case ClearCart =>
      DiffersAt(data, "add_", 0);
      DiffersAt(data, "increase_", 0);
      DiffersAt(data, "decrease_", 0);
      DiffersAt(data, "remove_", 0);
    case Unhandled =>
      DiffersAt(data, "add_", 0);
      DiffersAt(data, "increase_", 0);
      DiffersAt(data, "decrease_", 0);
      DiffersAt(data, "remove_", 0);
  }

  /**
   * A code that itself contains `_` does not survive: the add button for
   * `head + "_" + tail` adds the code `head`.
   */
  lemma AddTruncatesCode(head: string, tail: string)
    requires '_' !in head
    ensures Decode(Encode(AddItem(head + "_" + tail))) == AddItem(head)
  {
    var rest := head + "_" + tail;
    assert StartsWith(rest, head + "_");
    FieldAfter("add", rest, head);
    assert "add_" + rest == "add" + "_" + rest;
  }
}
