/**
 The few pieces of JavaScript string semantics the game relies on:
 `String.prototype.trim`, `String.prototype.split` with a one-character
 separator, reading an array element that may be past the end, and the
 truthiness of a `string | null | undefined` value.
 */
module JsText {
  import opened Types

  /**
   The code points `trim` removes: ECMAScript WhiteSpace (tab, vertical tab,
   form feed, space, no-break space, byte order mark and the Zs category)
   and LineTerminator (line feed, carriage return, line and paragraph
   separator).
   */
  predicate IsWhitespace(c: char) {
    var n := c as int;
    n == 0x09 || n == 0x0A || n == 0x0B || n == 0x0C || n == 0x0D ||
    n == 0x20 || n == 0xA0 || n == 0x1680 || (0x2000 <= n <= 0x200A) ||
    n == 0x2028 || n == 0x2029 || n == 0x202F || n == 0x205F ||
    n == 0x3000 || n == 0xFEFF
  }

  predicate IsBlank(s: string) {
    forall i :: 0 <= i < |s| ==> IsWhitespace(s[i])
  }

  /** JavaScript truthiness of an optional string: absent and "" are both false. */
  predicate Truthy(s: Option<string>) {
    s.Some? && s.value != ""
  }

  /** How many whitespace characters `s` starts with. */
  function LeadingWhitespace(s: string): (k: nat)
    ensures k <= |s|
    ensures forall i :: 0 <= i < k ==> IsWhitespace(s[i])
    ensures k < |s| ==> !IsWhitespace(s[k])
  {
    if s != [] && IsWhitespace(s[0]) then 1 + LeadingWhitespace(s[1..]) else 0
  }

  /** How many whitespace characters `s` ends with. */
  function TrailingWhitespace(s: string): (k: nat)
    ensures k <= |s|
    ensures forall i :: |s| - k <= i < |s| ==> IsWhitespace(s[i])
    ensures k < |s| ==> !IsWhitespace(s[|s| - 1 - k])
  {
    if s != [] && IsWhitespace(s[|s| - 1]) then 1 + TrailingWhitespace(s[..|s| - 1]) else 0
  }

  /** `s.trimStart()`. */
  function TrimStart(s: string): string {
    s[LeadingWhitespace(s)..]
  }

  /** `s.trimEnd()`. */
  function TrimEnd(s: string): string {
    s[..|s| - TrailingWhitespace(s)]
  }

  /** `s.trim()`: empty exactly when `s` holds nothing but whitespace. */
  function Trim(s: string): (r: string)
    ensures r == "" <==> IsBlank(s)
    ensures r != "" ==> !IsWhitespace(r[0]) && !IsWhitespace(r[|r| - 1])
  {
    TrimEnd(TrimStart(s))
  }

  /** `s` has no occurrence of `sep`. */
  predicate Free(s: string, sep: char) {
    sep !in s
  }

  /** Index of the first `c` in `s`, or None when `c` does not occur. */
  function IndexOf(s: string, c: char): (r: Option<nat>)
    ensures r.None? <==> c !in s
    ensures r.Some? ==> r.value < |s| && s[r.value] == c && c !in s[..r.value]
  {
    if s == [] then None
    else if s[0] == c then Some(0)
    else match IndexOf(s[1..], c)
      case None => None
      case Some(k) =>
        assert s[..k + 1] == [s[0]] + s[1..][..k];
        Some(k + 1)
  }

  /**
   `s.split(sep)` for a one-character separator: the maximal pieces of `s`
   between occurrences of `sep`, so `""` yields `[""]`.
   */
  function Split(s: string, sep: char): (fields: seq<string>)
    ensures |fields| >= 1
    ensures |fields| == 1 <==> sep !in s
    ensures forall i :: 0 <= i < |fields| ==> Free(fields[i], sep)
    decreases |s|
  {
    match IndexOf(s, sep)
    case None => [s]
    case Some(i) => [s[..i]] + Split(s[i + 1..], sep)
  }

  /** `fields.join(sep)`. */
  function Join(fields: seq<string>, sep: char): string
    requires |fields| >= 1
    decreases |fields|
  {
    if |fields| == 1 then fields[0] else fields[0] + [sep] + Join(fields[1..], sep)
  }

  /** `xs[k]`, which is `undefined` past the end of the array. */
  function At(xs: seq<string>, k: nat): (r: Option<string>)
    ensures r.Some? <==> k < |xs|
    ensures r.Some? ==> r.value == xs[k]
  {
    if k < |xs| then Some(xs[k]) else None
  }

  /** Splitting loses nothing: joining the pieces again gives back `s`. */
  lemma {:induction false} JoinSplit(s: string, sep: char)
    ensures Join(Split(s, sep), sep) == s
    decreases |s|
  {
    match IndexOf(s, sep)
    case None =>
    case Some(i) =>
      var head, tail := s[..i], s[i + 1..];
      var rest := Split(tail, sep);
      assert s == head + [sep] + tail by {
        assert s == s[..i] + [s[i]] + s[i + 1..];
      }
      calc {
        Join(Split(s, sep), sep);
        Join([head] + rest, sep);
        { JoinCons(head, rest, sep); }
        head + [sep] + Join(rest, sep);
        { JoinSplit(tail, sep); }
        head + [sep] + tail;
      }
  }

  /** Joining peels off one piece at a time. */
  lemma JoinCons(head: string, rest: seq<string>, sep: char)
    requires |rest| >= 1
    ensures Join([head] + rest, sep) == head + [sep] + Join(rest, sep)
  {
    assert ([head] + rest)[1..] == rest;
  }

  /** The first separator of `a + [sep] + b` is the one just after `a` when `a` has none. */
  lemma IndexOfAfterPrefix(a: string, sep: char, b: string)
    requires sep !in a
    ensures IndexOf(a + [sep] + b, sep) == Some(|a|)
  {
    var s := a + [sep] + b;
    assert s[|a|] == sep;
    assert s[..|a|] == a;
  }

  /** Pieces free of the separator are recovered exactly by splitting their join. */
  lemma {:induction false} SplitJoin(fields: seq<string>, sep: char)
    requires |fields| >= 1
    requires forall i :: 0 <= i < |fields| ==> Free(fields[i], sep)
    ensures Split(Join(fields, sep), sep) == fields
    decreases |fields|
  {
    if |fields| > 1 {
      var head, tail := fields[0], fields[1..];
      var rest := Join(tail, sep);
      var s := head + [sep] + rest;
      assert fields == [head] + tail;
      IndexOfAfterPrefix(head, sep, rest);
      assert s[..|head|] == head;
      assert s[|head| + 1..] == rest;
      calc {
        Split(Join(fields, sep), sep);
        { JoinCons(head, tail, sep); }
        Split(s, sep);
        [head] + Split(rest, sep);
        { SplitJoin(tail, sep); }
        [head] + tail;
      }
    }
  }
}
