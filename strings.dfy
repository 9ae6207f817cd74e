/** The string primitives the snapshotter leans on: Go's `strings.Contains`,
    `strings.Split` and `strings.Join`, and the `%q` quoting used in error
    messages, each with the laws that connect it to its inverse. */
module Strings {
  import opened Wrappers

  /** `sep` occurs in `s` starting at index `i`. */
  predicate OccursAt(s: string, sep: string, i: int) {
    0 <= i && i + |sep| <= |s| && s[i..i + |sep|] == sep
  }

  /** Go's `strings.Contains(s, sep)`. */
  predicate Contains(s: string, sep: string) {
    exists i | 0 <= i <= |s| :: OccursAt(s, sep, i)
  }

  /** Go's `strings.Split(s, sep)` for a non-empty separator: the pieces
      between the non-overlapping occurrences of `sep`, scanned from the left.
      There is always at least one piece. */
  function Split(s: string, sep: string): (parts: seq<string>)
    requires |sep| > 0
    ensures |parts| > 0
    decreases |s|
  {
    if |s| < |sep| then [s]
    else if s[..|sep|] == sep then [""] + Split(s[|sep|..], sep)
    else
      var rest := Split(s[1..], sep);
      [[s[0]] + rest[0]] + rest[1..]
  }

  /** Go's `strings.Join(parts, sep)`. */
  function Join(parts: seq<string>, sep: string): (s: string)
    decreases |parts|
  {
    if |parts| == 0 then ""
    else if |parts| == 1 then parts[0]
    else parts[0] + sep + Join(parts[1..], sep)
  }

  lemma JoinCons(piece: string, rest: seq<string>, sep: string)
    requires |rest| > 0
    ensures Join([piece] + rest, sep) == piece + sep + Join(rest, sep)
  {
    assert ([piece] + rest)[1..] == rest;
  }

  /** Putting a character in front of the first piece puts it in front of the
      join. */
  lemma JoinPrepend(c: char, parts: seq<string>, sep: string)
    requires |parts| > 0
    ensures Join([[c] + parts[0]] + parts[1..], sep) == [c] + Join(parts, sep)
  {
    var parts' := [[c] + parts[0]] + parts[1..];
    if |parts| > 1 {
      assert parts'[1..] == parts[1..];
    }
  }

  lemma ConcatAssoc(a: string, b: string, c: string)
    ensures a + (b + c) == a + b + c
  {
  }

  /** Joining the pieces of a split gives back the original string. */
  lemma {:induction false} JoinSplit(s: string, sep: string)
    requires |sep| > 0
    ensures Join(Split(s, sep), sep) == s
    decreases |s|
  {
    if |s| < |sep| {
    } else if s[..|sep|] == sep {
      var rest := Split(s[|sep|..], sep);
      assert Split(s, sep) == [""] + rest;
      JoinSplit(s[|sep|..], sep);
      JoinCons("", rest, sep);
      assert s == sep + s[|sep|..];
    } else {
      var rest := Split(s[1..], sep);
      assert Split(s, sep) == [[s[0]] + rest[0]] + rest[1..];
      JoinSplit(s[1..], sep);
      JoinPrepend(s[0], rest, sep);
      assert s == [s[0]] + s[1..];
    }
  }

  /** A string splits into more than one piece exactly when it contains the
      separator. */
  lemma {:induction false} SplitMoreThanOne(s: string, sep: string)
    requires |sep| > 0
    ensures Contains(s, sep) <==> |Split(s, sep)| > 1
    decreases |s|
  {
    if |s| < |sep| {
      assert !Contains(s, sep);
    } else if s[..|sep|] == sep {
      assert OccursAt(s, sep, 0);
    } else {
      SplitMoreThanOne(s[1..], sep);
      if Contains(s, sep) {
        var i :| 0 <= i <= |s| && OccursAt(s, sep, i);
        assert i != 0;
        assert s[1..][i - 1..i - 1 + |sep|] == s[i..i + |sep|];
        assert OccursAt(s[1..], sep, i - 1);
      }
      if Contains(s[1..], sep) {
        var i :| 0 <= i <= |s[1..]| && OccursAt(s[1..], sep, i);
        assert s[1..][i..i + |sep|] == s[i + 1..i + 1 + |sep|];
        assert OccursAt(s, sep, i + 1);
      }
    }
  }

  /** A piece that does not hold the separator's first character ends at the
      first separator that follows it. */
  lemma {:induction false} SplitAfterPiece(w: string, sep: string, rest: string)
    requires |sep| > 0 && sep[0] !in w
    ensures Split(w + sep + rest, sep) == [w] + Split(rest, sep)
    decreases |w|
  {
    var s := w + sep + rest;
    if w == [] {
      assert s[..|sep|] == sep;
      assert s[|sep|..] == rest;
    } else {
      assert s[0] == w[0] && s[..|sep|][0] == s[0];
      assert s[1..] == w[1..] + sep + rest;
      SplitAfterPiece(w[1..], sep, rest);
      assert [w[0]] + w[1..] == w;
    }
  }

  /** A string without the separator's first character is a single piece. */
  lemma {:induction false} SplitWhole(w: string, sep: string)
    requires |sep| > 0 && sep[0] !in w
    ensures Split(w, sep) == [w]
    decreases |w|
  {
    if |w| >= |sep| {
      assert w[..|sep|][0] == w[0];
      SplitWhole(w[1..], sep);
      assert [w[0]] + w[1..] == w;
    }
  }

  /** Splitting the join of pieces that avoid the separator's first character
      gives the pieces back. */
  lemma {:induction false} SplitJoin(parts: seq<string>, sep: string)
    requires |sep| > 0 && |parts| > 0
    requires forall i | 0 <= i < |parts| :: sep[0] !in parts[i]
    ensures Split(Join(parts, sep), sep) == parts
    decreases |parts|
  {
    if |parts| == 1 {
      SplitWhole(parts[0], sep);
    } else {
      SplitJoin(parts[1..], sep);
      SplitAfterPiece(parts[0], sep, Join(parts[1..], sep));
      assert [parts[0]] + parts[1..] == parts;
    }
  }

  /** With a one-character separator no piece holds that character. */
  lemma {:induction false} SplitPiecesAvoid(s: string, sep: string)
    requires |sep| == 1
    ensures forall i | 0 <= i < |Split(s, sep)| :: sep[0] !in Split(s, sep)[i]
    decreases |s|
  {
    if |s| >= 1 {
      SplitPiecesAvoid(s[|sep|..], sep);
    }
  }

  /** The body of a `%q` literal: `"` and `\` are preceded by a backslash. */
  function Escape(s: string): (e: string) {
    if s == [] then []
    else (if s[0] == '"' || s[0] == '\\' then ['\\', s[0]] else [s[0]]) + Escape(s[1..])
  }

  /** Go's `%q` verb on a string (printable characters only). */
  function Quote(s: string): (q: string) {
    "\"" + Escape(s) + "\""
  }

  /** The inverse of Escape; None for a body that no string escapes to. */
  function Unescape(e: string): (s: Option<string>)
    decreases |e|
  {
    if e == [] then Some([])
    else if e[0] == '\\' then
      if |e| >= 2 && (e[1] == '"' || e[1] == '\\') then
        match Unescape(e[2..])
        case Some(t) => Some([e[1]] + t)
        case None => None
      else None
    else if e[0] == '"' then None
    else
      match Unescape(e[1..])
      case Some(t) => Some([e[0]] + t)
      case None => None
  }

  /** Go's `strconv.Unquote` restricted to what Quote produces. */
  function Unquote(q: string): (s: Option<string>) {
    if |q| >= 2 && q[0] == '"' && q[|q| - 1] == '"' then Unescape(q[1..|q| - 1]) else None
  }

  lemma {:induction false} UnescapeEscape(s: string)
    ensures Unescape(Escape(s)) == Some(s)
  {
    if s != [] {
      UnescapeEscape(s[1..]);
      var e := Escape(s);
      if s[0] == '"' || s[0] == '\\' {
        assert e[2..] == Escape(s[1..]);
      } else {
        assert e[1..] == Escape(s[1..]);
      }
      assert [s[0]] + s[1..] == s;
    }
  }

  /** Quoting loses nothing: the original string can be read back. */
  lemma UnquoteQuote(s: string)
    ensures Unquote(Quote(s)) == Some(s)
  {
    var q := Quote(s);
    assert q[1..|q| - 1] == Escape(s);
    UnescapeEscape(s);
  }

  /** A string without `"` or `\` is quoted by wrapping it in double quotes. */
  lemma {:induction false} EscapePlain(s: string)
    requires '"' !in s && '\\' !in s
    ensures Escape(s) == s
  {
    if s != [] {
      EscapePlain(s[1..]);
      assert [s[0]] + s[1..] == s;
    }
  }
}
