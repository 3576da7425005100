/** Line splitting and whitespace trimming, as Rust's `str::lines` and `str::trim` do them. */
module TextLines {

  /** Rust's `char::is_whitespace`: the Unicode White_Space property. */
  predicate IsWhitespace(c: char) {
    || c == ' ' || c == '\t' || c == '\n' || c == '\U{B}' || c == '\U{C}' || c == '\r'
    || c == '\U{85}' || c == '\U{A0}' || c == '\U{1680}'
    || ('\U{2000}' <= c <= '\U{200A}')
    || c == '\U{2028}' || c == '\U{2029}' || c == '\U{202F}' || c == '\U{205F}' || c == '\U{3000}'
  }

  /** `s` holds no whitespace character (the regex class `\S` throughout). */
  predicate NoSpace(s: string) {
    forall i :: 0 <= i < |s| ==> !IsWhitespace(s[i])
  }

  lemma NoSpaceAppend(a: string, b: string)
    requires NoSpace(a) && NoSpace(b)
    ensures NoSpace(a + b)
  {
    forall i | 0 <= i < |a + b|
      ensures !IsWhitespace((a + b)[i])
    {
      if i >= |a| {
        assert (a + b)[i] == b[i - |a|];
      }
    }
  }

  lemma NoSpaceNoNewline(s: string)
    requires NoSpace(s)
    ensures '\n' !in s
  {
  }

  /** `s` without its leading whitespace. */
  function TrimStart(s: string): (r: string)
    ensures |r| <= |s| && r == s[|s| - |r|..]
    ensures forall i :: 0 <= i < |s| - |r| ==> IsWhitespace(s[i])
    ensures r != [] ==> !IsWhitespace(r[0])
    decreases |s|
  {
    if s != [] && IsWhitespace(s[0]) then TrimStart(s[1..]) else s
  }

  /** `s` without its trailing whitespace. */
  function TrimEnd(s: string): (r: string)
    ensures |r| <= |s| && r == s[..|r|]
    ensures forall i :: |r| <= i < |s| ==> IsWhitespace(s[i])
    ensures r != [] ==> !IsWhitespace(r[|r| - 1])
    decreases |s|
  {
    if s != [] && IsWhitespace(s[|s| - 1]) then TrimEnd(s[..|s| - 1]) else s
  }

  /**
   * Rust's `str::trim`: a prefix of `TrimStart(s)` with only whitespace after
   * it, so together with `TrimStart`'s contract a slice of `s` with only
   * whitespace on either side.
   */
  function Trim(s: string): (r: string)
    ensures r <= TrimStart(s)
    ensures forall i :: |r| <= i < |TrimStart(s)| ==> IsWhitespace(TrimStart(s)[i])
    ensures r != [] ==> !IsWhitespace(r[0]) && !IsWhitespace(r[|r| - 1])
  {
    TrimEnd(TrimStart(s))
  }

  /** A string that neither starts nor ends with whitespace is its own trim. */
  lemma TrimUnchanged(s: string)
    requires s != [] && !IsWhitespace(s[0]) && !IsWhitespace(s[|s| - 1])
    ensures Trim(s) == s
  {
  }

  /** The position of the first line feed in `s`, or |s| when there is none. */
  function NewlineIndex(s: string): (i: nat)
    ensures i <= |s| && '\n' !in s[..i]
    ensures i < |s| ==> s[i] == '\n'
    decreases |s|
  {
    if s == [] then 0
    else if s[0] == '\n' then 0
    else
      var j := NewlineIndex(s[1..]);
      assert s[..j + 1] == [s[0]] + s[1..][..j];
      j + 1
  }

  /**
   * Rust's `str::lines`: the pieces between line feeds, where a final line feed
   * does not open another (empty) line. Rust also drops a '\r' before each line
   * feed; every caller here trims the lines, which removes that '\r' anyway.
   */
  function Lines(s: string): (ls: seq<string>)
    ensures forall i :: 0 <= i < |ls| ==> '\n' !in ls[i]
    decreases |s|
  {
    if s == [] then []
    else
      var i := NewlineIndex(s);
      [s[..i]] + (if i == |s| then [] else Lines(s[i + 1..]))
  }

  /** Each line followed by a line feed: the text that `Lines` splits back apart. */
  function JoinLines(ls: seq<string>): string {
    if ls == [] then "" else ls[0] + "\n" + JoinLines(ls[1..])
  }

  predicate NoNewlines(ls: seq<string>) {
    forall i :: 0 <= i < |ls| ==> '\n' !in ls[i]
  }

  lemma NoNewlinesAppend(a: seq<string>, b: seq<string>)
    requires NoNewlines(a) && NoNewlines(b)
    ensures NoNewlines(a + b)
  {
    forall i | 0 <= i < |a + b|
      ensures '\n' !in (a + b)[i]
    {
      if i >= |a| {
        assert (a + b)[i] == b[i - |a|];
      }
    }
  }

  lemma {:induction false} JoinLinesAppend(a: seq<string>, b: seq<string>)
    ensures JoinLines(a + b) == JoinLines(a) + JoinLines(b)
  {
    if a == [] {
      assert a + b == b;
    } else {
      assert (a + b)[0] == a[0];
      assert (a + b)[1..] == a[1..] + b;
      JoinLinesAppend(a[1..], b);
    }
  }

  lemma JoinLinesSnoc(ls: seq<string>, l: string)
    ensures JoinLines(ls + [l]) == JoinLines(ls) + l + "\n"
  {
    JoinLinesAppend(ls, [l]);
    assert JoinLines([l]) == l + "\n" + JoinLines([]);
  }

  /** Splitting joined lines gives the lines back, when none of them holds a line feed. */
  lemma {:induction false} LinesOfJoin(ls: seq<string>)
    requires NoNewlines(ls)
    ensures Lines(JoinLines(ls)) == ls
  {
    if ls != [] {
      var s := JoinLines(ls);
      var a := ls[0];
      assert s == a + ("\n" + JoinLines(ls[1..]));
      var i := NewlineIndex(s);
      assert s[|a|] == '\n';
      assert i == |a|;
      assert s[..i] == a;
      assert s[i + 1..] == JoinLines(ls[1..]);
      LinesOfJoin(ls[1..]);
    }
  }

  /**
   * Joining the lines of a text gives the text back, with a line feed added
   * when its last line had none: `str::lines` makes the final line feed optional.
   */
  lemma {:induction false} JoinOfLines(s: string)
    ensures JoinLines(Lines(s)) == if s == [] || s[|s| - 1] == '\n' then s else s + "\n"
    decreases |s|
  {
    if s != [] {
      var i := NewlineIndex(s);
      if i == |s| {
        LastLine(s);
      } else {
        var rest := s[i + 1..];
        FirstLine(s, i);
        JoinOfLines(rest);
        JoinCons(s[..i], Lines(rest));
        JoinAfterLine(s[..i], rest);
      }
    }
  }

  /** A text with no line feed is one line, written back with a line feed added. */
  lemma LastLine(s: string)
    requires s != [] && NewlineIndex(s) == |s|
    ensures Lines(s) == [s] && s[|s| - 1] != '\n'
    ensures JoinLines([s]) == s + "\n"
  {
    assert s[..|s|] == s;
    JoinOne(s);
  }

  /** A text with a line feed at `i` is its first line, that line feed and the rest. */
  lemma FirstLine(s: string, i: nat)
    requires i == NewlineIndex(s) < |s|
    ensures Lines(s) == [s[..i]] + Lines(s[i + 1..])
    ensures s == s[..i] + ("\n" + s[i + 1..])
  {
    SplitAt(s, i);
  }

  /** `s` is its part before `i`, the element at `i` and its part after. */
  lemma SplitAt<T>(s: seq<T>, i: nat)
    requires i < |s|
    ensures s == s[..i] + ([s[i]] + s[i + 1..])
  {
    assert s[i..] == [s[i]] + s[i + 1..];
    assert s == s[..i] + s[i..];
  }

  /** The end of `a`, a line feed and `rest` is the end of `rest`, or that line feed when `rest` is empty. */
  lemma JoinAfterLine(a: string, rest: string)
    ensures var s := a + ("\n" + rest);
      a + "\n" + (if rest == [] || rest[|rest| - 1] == '\n' then rest else rest + "\n")
      == if s[|s| - 1] == '\n' then s else s + "\n"
  {
    var s := a + ("\n" + rest);
    if rest != [] {
      assert s[|s| - 1] == rest[|rest| - 1];
    }
  }

  /** One line joined is that line and a line feed. */
  lemma JoinOne(l: string)
    ensures JoinLines([l]) == l + "\n"
  {
    assert [l][1..] == [];
  }

  /** Joining a first line before the rest. */
  lemma JoinCons(l: string, ls: seq<string>)
    ensures JoinLines([l] + ls) == l + "\n" + JoinLines(ls)
  {
    assert ([l] + ls)[1..] == ls;
  }
}
