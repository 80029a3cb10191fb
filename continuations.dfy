/** The continuation codec: the fallback chain that picks the continuation of a
    `get`, and the comma-split that reads an exported-value continuation string
    as a (scope, property) pair. */
module Continuations {
  import opened JsValues

  /** `continuation || contd || ''`, with the empty string standing for every
      falsy argument (undefined and '' give the same result in this chain). */
  function ResolveContinuation(continuation: string, contd: string): (r: string)
    ensures continuation != "" ==> r == continuation
    ensures continuation == "" ==> r == contd
    ensures r == "" <==> continuation == "" && contd == ""
  {
    if continuation != "" then continuation
    else if contd != "" then contd
    else ""
  }

  /** The number of commas in `s`. */
  function CommaCount(s: string): nat {
    if s == [] then 0
    else (if s[0] == ',' then 1 else 0) + CommaCount(s[1..])
  }

  /** Glues parts back together with commas between them. */
  function Join(parts: seq<string>): string
    requires |parts| >= 1
  {
    if |parts| == 1 then parts[0] else parts[0] + "," + Join(parts[1..])
  }

  /** JavaScript's `s.split(',')`: one more part than there are commas (so the
      empty string gives `['']`), no part holds a comma, and joining the parts
      with commas gives `s` back. */
  function Split(s: string): (parts: seq<string>)
    ensures |parts| == CommaCount(s) + 1
    ensures forall i :: 0 <= i < |parts| ==> ',' !in parts[i]
    ensures Join(parts) == s
  {
    if s == [] then [""]
    else
      var rest := Split(s[1..]);
      if s[0] == ',' then
        assert ([""] + rest)[1..] == rest;
        [""] + rest
      else
        var first := [s[0]] + rest[0];
        assert ([first] + rest[1..])[1..] == rest[1..];
        assert s == [s[0]] + s[1..];
        [first] + rest[1..]
  }

  /** Splitting a comma-free word followed by anything glues the word onto the
      first part of the rest. */
  lemma {:induction false} SplitAfterWord(w: string, t: string)
    requires ',' !in w
    ensures Split(w + t) == [w + Split(t)[0]] + Split(t)[1..]
  {
    if w == [] {
      var parts := Split(t);
      assert w + t == t && w + parts[0] == parts[0];
      assert parts == [parts[0]] + parts[1..];
    } else {
      assert (w + t)[0] == w[0];
      assert (w + t)[1..] == w[1..] + t;
      SplitAfterWord(w[1..], t);
      assert [w[0]] + (w[1..] + Split(t)[0]) == w + Split(t)[0];
    }
  }

  /** Splitting a comma-free word followed by a comma. */
  lemma SplitWordComma(w: string, t: string)
    requires ',' !in w
    ensures Split(w + "," + t) == [w] + Split(t)
  {
    var u := "," + t;
    assert w + "," + t == w + u;
    SplitAfterWord(w, u);
    assert u != [] && u[0] == ',' && u[1..] == t;
    var parts := Split(t);
    assert Split(u) == [""] + parts;
    assert Split(u)[0] == "" && Split(u)[1..] == parts;
    assert w + "" == w;
  }

  /** Split is the inverse of Join on comma-free parts. */
  lemma {:induction false} SplitJoin(parts: seq<string>)
    requires |parts| >= 1
    requires forall i :: 0 <= i < |parts| ==> ',' !in parts[i]
    ensures Split(Join(parts)) == parts
  {
    if |parts| == 1 {
      SplitAfterWord(parts[0], "");
      assert parts[0] + "" == parts[0];
    } else {
      SplitJoin(parts[1..]);
      SplitWordComma(parts[0], Join(parts[1..]));
    }
  }

  /** Field `i` of the split, or undefined when the string has fewer parts. */
  function Field(parts: seq<string>, i: nat): JsValue {
    if i < |parts| then Str(parts[i]) else Undefined
  }

  /** The (scope, property) pair read from an exported-value continuation:
      fields 1 and 2 of its comma split; field 0 and the fields after 2 are not
      looked at, and a missing field is undefined. */
  function ExportPath(s: string): (path: (JsValue, JsValue))
    ensures CommaCount(s) == 0 ==> path == (Undefined, Undefined)
    ensures CommaCount(s) == 1 ==> path.0.Str? && path.1 == Undefined
    ensures CommaCount(s) >= 2 ==> path.0.Str? && path.1.Str?
    ensures path.0.Str? ==> ',' !in path.0.s
    ensures path.1.Str? ==> ',' !in path.1.s
  {
    var parts := Split(s);
    (Field(parts, 1), Field(parts, 2))
  }

  /** For every string, written as its comma-free fields joined by commas,
      the path is field 1 and field 2, each undefined when missing; so
      `tag,scope` yields `(scope, undefined)`. */
  lemma ExportPathOfParts(parts: seq<string>)
    requires |parts| >= 1
    requires forall i :: 0 <= i < |parts| ==> ',' !in parts[i]
    ensures ExportPath(Join(parts)) == (Field(parts, 1), Field(parts, 2))
  {
    SplitJoin(parts);
  }

  /** A well-formed `tag,scope,property` string, possibly followed by further
      comma-separated fields, yields exactly `(scope, property)`. */
  lemma ExportPathOfFields(tag: string, scope: string, property: string, tail: string)
    requires ',' !in tag && ',' !in scope && ',' !in property
    requires tail == "" || tail[0] == ','
    ensures ExportPath(tag + "," + scope + "," + property + tail) == (Str(scope), Str(property))
  {
    var s := tag + "," + scope + "," + property + tail;
    assert s == tag + "," + (scope + "," + (property + tail));
    SplitWordComma(tag, scope + "," + (property + tail));
    SplitWordComma(scope, property + tail);
    SplitAfterWord(property, tail);
    if tail == "" {
      assert Split(tail)[0] == "";
    } else {
      assert tail == "," + tail[1..];
      assert Split(tail)[0] == "";
    }
    assert property + Split(tail)[0] == property;
  }

  /** The tag before the first comma never influences the path. */
  lemma ExportPathIgnoresTag(tag1: string, tag2: string, rest: string)
    requires ',' !in tag1 && ',' !in tag2
    ensures ExportPath(tag1 + "," + rest) == ExportPath(tag2 + "," + rest)
  {
    SplitWordComma(tag1, rest);
    SplitWordComma(tag2, rest);
  }
}
