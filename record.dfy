/**
 * The record line pattern of the task file, matched by hand:
 *
 *   ^- \[([ x])\] (.+?) <!-- id:(\d+) created:(\S+)(?: done:(\S+))? -->$
 *
 * `RecordText` and `MetaText` describe the language the pattern accepts by
 * building its lines from their capture groups; `MatchRecord` decides it and
 * returns the groups the regex engine returns, with the shortest title the
 * lazy `(.+?)` allows. `\s` is the Unicode White_Space property; `\d` is read
 * as the ASCII digits.
 */
module RecordPattern {
  import opened Wrappers
  import opened Digits
  import opened TextLines
  import opened Seqs

  const MetaOpen: string := " <!-- id:"
  const CreatedTag: string := " created:"
  const DoneTag: string := " done:"
  const MetaClose: string := " -->"

  /** Capture groups 3 to 5: id digits, creation text, and the optional completion text. */
  datatype Meta = Meta(id: string, created: string, done: Option<string>)

  /** All capture groups: the marker character, the title, and the metadata. */
  datatype Captures = Captures(marker: char, title: string, meta: Meta)

  predicate StartsWith(s: string, p: string) {
    |p| <= |s| && s[..|p|] == p
  }

  /** The optional group `(?: done:(\S+))?` holds a non-empty run without whitespace. */
  predicate WellFormedDone(done: Option<string>) {
    done.Some? ==> done.value != [] && NoSpace(done.value)
  }

  /** Every group of the metadata holds what its class (`\d+` or `\S+`) admits. */
  predicate WellFormedMeta(m: Meta) {
    && m.id != [] && AllDigits(m.id)
    && m.created != [] && NoSpace(m.created)
    && WellFormedDone(m.done)
  }

  function DoneText(done: Option<string>): string {
    match done
    case None => ""
    case Some(e) => DoneTag + e
  }

  /** What follows the creation group: ` done:D -->` or ` -->`. */
  function DoneTail(done: Option<string>): string {
    DoneText(done) + MetaClose
  }

  /** What follows ` created:`. */
  function CreatedTail(created: string, done: Option<string>): string {
    created + DoneTail(done)
  }

  /** What follows ` <!-- id:`. */
  function IdTail(m: Meta): string {
    m.id + (CreatedTag + CreatedTail(m.created, m.done))
  }

  /** The metadata suffix ` <!-- id:N created:C[ done:D] -->` built from its groups. */
  function MetaText(m: Meta): string {
    MetaOpen + IdTail(m)
  }

  /** The marker is a space or `x`; the title (`.+`) is non-empty with no line feed. */
  predicate WellFormedCaptures(c: Captures) {
    && (c.marker == ' ' || c.marker == 'x')
    && c.title != [] && '\n' !in c.title
    && WellFormedMeta(c.meta)
  }

  /** The six characters `- [m] ` that open a record line with marker `m`. */
  function RecordHead(marker: char): string {
    "- [" + [marker] + "] "
  }

  /** The record line built from its groups. */
  function RecordText(c: Captures): string {
    RecordHead(c.marker) + (c.title + MetaText(c.meta))
  }

  /** `line` is in the language of the record pattern. */
  ghost predicate MatchesRecordRegex(line: string) {
    exists c :: WellFormedCaptures(c) && line == RecordText(c)
  }

  /** The length of the longest run of digits at the start of `s` (greedy `\d+`). */
  function DigitRun(s: string): (n: nat)
    ensures n <= |s| && forall i :: 0 <= i < n ==> IsDigit(s[i])
    ensures n < |s| ==> !IsDigit(s[n])
    decreases |s|
  {
    if s != [] && IsDigit(s[0]) then 1 + DigitRun(s[1..]) else 0
  }

  /** The length of the longest run of non-whitespace at the start of `s` (greedy `\S+`). */
  function NonSpaceRun(s: string): (n: nat)
    ensures n <= |s| && forall i :: 0 <= i < n ==> !IsWhitespace(s[i])
    ensures n < |s| ==> IsWhitespace(s[n])
    decreases |s|
  {
    if s != [] && !IsWhitespace(s[0]) then 1 + NonSpaceRun(s[1..]) else 0
  }

  /** A greedy digit run stops exactly where the digits end. */
  lemma {:induction false} DigitRunOfConcat(a: string, b: string)
    requires AllDigits(a) && b != [] && !IsDigit(b[0])
    ensures DigitRun(a + b) == |a|
  {
    if a == [] {
      assert a + b == b;
    } else {
      assert (a + b)[0] == a[0];
      assert (a + b)[1..] == a[1..] + b;
      DigitRunOfConcat(a[1..], b);
    }
  }

  /** A greedy non-whitespace run stops exactly at the first whitespace. */
  lemma {:induction false} NonSpaceRunOfConcat(a: string, b: string)
    requires NoSpace(a) && b != [] && IsWhitespace(b[0])
    ensures NonSpaceRun(a + b) == |a|
  {
    if a == [] {
      assert a + b == b;
    } else {
      assert (a + b)[0] == a[0];
      assert (a + b)[1..] == a[1..] + b;
      NonSpaceRunOfConcat(a[1..], b);
    }
  }

  /** Matches ` done:(\S+)` (optional) followed by ` -->` against all of `s`. */
  function MatchDoneTail(s: string): (r: Option<Option<string>>)
    ensures r.Some? ==> WellFormedDone(r.value) && s == DoneTail(r.value)
  {
    if s == MetaClose then Some(None)
    else if !StartsWith(s, DoneTag) then None
    else
      var s' := s[6..];
      var e := NonSpaceRun(s');
      if e == 0 || s'[e..] != MetaClose then None
      else
        assert s == DoneTag + s'[..e] + MetaClose by {
          assert s == s[..6] + s';
          assert s' == s'[..e] + s'[e..];
        }
        Some(Some(s'[..e]))
  }

  /** Matches `(\S+)( done:(\S+))? -->` against all of `s`. */
  function MatchFromCreated(s: string): (r: Option<(string, Option<string>)>)
    ensures r.Some? ==> r.value.0 != [] && NoSpace(r.value.0) && WellFormedDone(r.value.1)
    ensures r.Some? ==> s == CreatedTail(r.value.0, r.value.1)
  {
    var c := NonSpaceRun(s);
    if c == 0 then None
    else
      match MatchDoneTail(s[c..])
      case None => None
      case Some(done) =>
        assert s == s[..c] + s[c..];
        Some((s[..c], done))
  }

  /** Matches `(\d+) created:(\S+)( done:(\S+))? -->` against all of `s`. */
  function MatchFromId(s: string): (r: Option<Meta>)
    ensures r.Some? ==> WellFormedMeta(r.value) && s == IdTail(r.value)
  {
    var d := DigitRun(s);
    if d == 0 || !StartsWith(s[d..], CreatedTag) then None
    else
      match MatchFromCreated(s[d + 9..])
      case None => None
      case Some((created, done)) =>
        SplitThree(s, d, 9);
        Some(Meta(s[..d], created, done))
  }

  /**
   * Matches the metadata part of the pattern against all of `s`. Each group is
   * followed by a space, which no group admits, so every greedy run is forced
   * and there is at most one way to match.
   */
  function MatchMeta(s: string): (r: Option<Meta>)
    ensures r.Some? ==> WellFormedMeta(r.value) && s == MetaText(r.value)
  {
    if !StartsWith(s, MetaOpen) then None
    else
      assert s == MetaOpen + s[9..];
      MatchFromId(s[9..])
  }

  lemma MatchDoneTailComplete(done: Option<string>)
    requires WellFormedDone(done)
    ensures MatchDoneTail(DoneTail(done)) == Some(done)
  {
    match done
    case None =>
      assert DoneTail(done) == MetaClose;
    case Some(e) =>
      var s := DoneTail(done);
      assert s == DoneTag + (e + MetaClose);
      assert s != MetaClose by { assert |s| > |MetaClose|; }
      assert s[..6] == DoneTag;
      assert s[6..] == e + MetaClose;
      NonSpaceRunOfConcat(e, MetaClose);
      assert (e + MetaClose)[..|e|] == e;
      assert (e + MetaClose)[|e|..] == MetaClose;
  }

  lemma MatchFromCreatedComplete(created: string, done: Option<string>)
    requires created != [] && NoSpace(created) && WellFormedDone(done)
    ensures MatchFromCreated(CreatedTail(created, done)) == Some((created, done))
  {
    var tail := DoneTail(done);
    var s := CreatedTail(created, done);
    assert tail[0] == ' ';
    NonSpaceRunOfConcat(created, tail);
    assert s[..|created|] == created;
    assert s[|created|..] == tail;
    MatchDoneTailComplete(done);
  }

  lemma MatchFromIdComplete(m: Meta)
    requires WellFormedMeta(m)
    ensures MatchFromId(IdTail(m)) == Some(m)
  {
    var rest := CreatedTail(m.created, m.done);
    var s := IdTail(m);
    DigitRunOfConcat(m.id, CreatedTag + rest);
    var d := |m.id|;
    assert s[..d] == m.id;
    assert s[d..] == CreatedTag + rest;
    assert s[d..][..9] == CreatedTag;
    assert s[d + 9..] == rest;
    MatchFromCreatedComplete(m.created, m.done);
  }

  /** Every well-formed metadata suffix is matched, with its own groups. */
  lemma MatchMetaComplete(m: Meta)
    requires WellFormedMeta(m)
    ensures MatchMeta(MetaText(m)) == Some(m)
  {
    var s := MetaText(m);
    assert s[..9] == MetaOpen;
    assert s[9..] == IdTail(m);
    MatchFromIdComplete(m);
  }

  /** `MatchMeta` accepts exactly the metadata suffixes of the pattern. */
  lemma MatchMetaDecides(s: string)
    ensures MatchMeta(s).Some? <==> exists m :: WellFormedMeta(m) && s == MetaText(m)
  {
    if m :| WellFormedMeta(m) && s == MetaText(m) {
      MatchMetaComplete(m);
    }
  }

  /** The metadata suffix determines its groups. */
  lemma MetaTextInjective(m: Meta, m': Meta)
    requires WellFormedMeta(m) && WellFormedMeta(m') && MetaText(m) == MetaText(m')
    ensures m == m'
  {
    MatchMetaComplete(m);
    MatchMetaComplete(m');
  }

  /** The title may end after `k` characters of `rest`: no line feed so far, and the metadata matches the remainder. */
  predicate TitleEndsAt(rest: string, k: nat)
    requires k <= |rest|
  {
    '\n' !in rest[..k] && MatchMeta(rest[k..]).Some?
  }

  /** The smallest title length from `k` on that lets the rest match (lazy `.+?`). */
  function FirstTitleEnd(rest: string, k: nat): (r: Option<nat>)
    ensures r.Some? ==> k <= r.value <= |rest| && TitleEndsAt(rest, r.value)
    ensures r.Some? ==> forall j :: k <= j < r.value ==> !TitleEndsAt(rest, j)
    ensures r.None? ==> forall j :: k <= j <= |rest| ==> !TitleEndsAt(rest, j)
    decreases |rest| - k
  {
    if k > |rest| then None
    else if TitleEndsAt(rest, k) then Some(k)
    else FirstTitleEnd(rest, k + 1)
  }

  /** Matches a whole (trimmed) line against the record pattern and returns its groups. */
  function MatchRecord(line: string): (r: Option<Captures>)
    ensures r.Some? ==> WellFormedCaptures(r.value) && line == RecordText(r.value)
  {
    if |line| < 6 || line[..3] != "- [" || (line[3] != ' ' && line[3] != 'x') || line[4..6] != "] " then None
    else
      var rest := line[6..];
      match FirstTitleEnd(rest, 1)
      case None => None
      case Some(k) =>
        var m := MatchMeta(rest[k..]).value;
        SplitRecordLine(line, k);
        Some(Captures(line[3], rest[..k], m))
  }

  /** A line that opens with `- [m] ` is that head, a title of `k` characters and the remainder. */
  lemma SplitRecordLine(line: string, k: nat)
    requires |line| >= 6 && line[..3] == "- [" && line[4..6] == "] " && k <= |line| - 6
    ensures line == RecordHead(line[3]) + (line[6..][..k] + line[6..][k..])
  {
    var rest := line[6..];
    assert line[..6] == line[..3] + [line[3]] + line[4..6];
    assert line == line[..6] + rest;
    assert rest == rest[..k] + rest[k..];
  }

  /** A line built from groups splits back into its marker, and a title followed by the metadata text. */
  lemma RecordTextParts(c: Captures)
    ensures var line := RecordText(c);
      && |line| >= 6 && line[..3] == "- [" && line[3] == c.marker && line[4..6] == "] "
      && line[6..] == c.title + MetaText(c.meta)
  {
    var line := RecordText(c);
    assert line[..6] == RecordHead(c.marker);
  }

  /** The text between `<!-- ` and ` -->`: `id:N created:C`, then ` done:D` when present. */
  function MetaBody(m: Meta): string {
    match m.done
    case Some(e) => "id:" + m.id + " created:" + m.created + " done:" + e
    case None => "id:" + m.id + " created:" + m.created
  }

  lemma MetaTextLayout(m: Meta)
    ensures MetaText(m) == " <!-- " + MetaBody(m) + " -->"
  {
    assert " <!-- " + "id:" == MetaOpen;
    match m.done
    case Some(e) =>
      RegroupMetaText(" <!-- ", "id:", m.id, CreatedTag, m.created, DoneTag + e, MetaClose);
    case None =>
      RegroupMetaText(" <!-- ", "id:", m.id, CreatedTag, m.created, [], MetaClose);
  }

  /** The regrouping between the left-nested layout and the right-nested `MetaText`. */
  lemma RegroupMetaText<T>(o: seq<T>, i: seq<T>, id: seq<T>, ct: seq<T>, cr: seq<T>, d: seq<T>, cl: seq<T>)
    ensures o + (i + id + ct + cr + d) + cl == (o + i) + (id + (ct + (cr + (d + cl))))
    ensures o + (i + id + ct + cr) + cl == (o + i) + (id + (ct + (cr + ([] + cl))))
  {
  }

  /** The record line laid out as `- {marker} {title} <!-- {metadata} -->`, with the checkbox `[m]`. */
  lemma RecordTextLayout(c: Captures)
    ensures RecordText(c) == "- " + ("[" + [c.marker] + "]") + " " + c.title + " <!-- " + MetaBody(c.meta) + " -->"
  {
    MetaTextLayout(c.meta);
    var box := "[" + [c.marker] + "]";
    assert RecordHead(c.marker) == "- " + box + " ";
    AppendFive("- " + box + " ", c.title, " <!-- ", MetaBody(c.meta), " -->");
  }

  /** The metadata suffix built from well-formed groups is one line that ends with `>`. */
  lemma MetaTextOneLine(m: Meta)
    requires WellFormedMeta(m)
    ensures var mt := MetaText(m); '\n' !in mt && mt != [] && mt[|mt| - 1] == '>'
  {
    var tail := DoneTail(m.done);
    if m.done.Some? {
      NoSpaceNoNewline(m.done.value);
    }
    OneLineAppend(DoneText(m.done), MetaClose);
    NoSpaceNoNewline(m.created);
    OneLineAppend(m.created, tail);
    OneLineAppend(CreatedTag, CreatedTail(m.created, m.done));
    OneLineAppend(m.id, CreatedTag + CreatedTail(m.created, m.done));
    OneLineAppend(MetaOpen, IdTail(m));
  }

  /** A line built from well-formed groups is one line that starts with `-` and ends with `>`. */
  lemma RecordTextOneLine(c: Captures)
    requires WellFormedCaptures(c)
    ensures var line := RecordText(c); '\n' !in line && line[0] == '-' && line[|line| - 1] == '>'
  {
    MetaTextOneLine(c.meta);
    OneLineAppend(c.title, MetaText(c.meta));
    OneLineAppend(RecordHead(c.marker), c.title + MetaText(c.meta));
  }

  /** Appending to a text without line feeds one without line feeds keeps it one line, ending as the second. */
  lemma OneLineAppend(a: string, b: string)
    requires '\n' !in a && '\n' !in b && b != []
    ensures '\n' !in a + b && (a + b)[|a + b| - 1] == b[|b| - 1]
  {
  }

  /** Every way to match `line` has a title of at least `k` characters, when the title cannot end earlier. */
  lemma NoShorterTitle(line: string, c': Captures, k: nat)
    requires WellFormedCaptures(c') && line == RecordText(c')
    requires forall j :: 1 <= j < k && j <= |line[6..]| ==> !TitleEndsAt(line[6..], j)
    ensures k <= |c'.title|
  {
    RecordTextParts(c');
    var rest := line[6..];
    var n := |c'.title|;
    if n < k {
      assert rest[..n] == c'.title;
      assert rest[n..] == MetaText(c'.meta);
      MatchMetaComplete(c'.meta);
      assert TitleEndsAt(rest, n);
    }
  }

  /**
   * `MatchRecord` decides the pattern, and of all ways to match a line the
   * groups it returns have the shortest title (the lazy `(.+?)`).
   */
  lemma MatchRecordDecides(line: string)
    ensures MatchRecord(line).Some? <==> MatchesRecordRegex(line)
    ensures MatchRecord(line).Some? ==> forall c' :: WellFormedCaptures(c') && line == RecordText(c') ==>
      |MatchRecord(line).value.title| <= |c'.title|
  {
    match MatchRecord(line)
    case Some(c) =>
      var rest := line[6..];
      assert FirstTitleEnd(rest, 1) == Some(|c.title|);
      forall c' | WellFormedCaptures(c') && line == RecordText(c')
        ensures |c.title| <= |c'.title|
      {
        NoShorterTitle(line, c', |c.title|);
      }
    case None =>
      if c' :| WellFormedCaptures(c') && line == RecordText(c') {
        RecordTextParts(c');
        var rest := line[6..];
        assert FirstTitleEnd(rest, 1).None?;
        NoShorterTitle(line, c', |rest| + 1);
      }
  }

  /** The number of space characters in `s`. */
  function Blanks(s: string): nat {
    multiset(s)[' ']
  }

  lemma NoSpaceBlanks(s: string)
    requires NoSpace(s)
    ensures Blanks(s) == 0
  {
    assert ' ' !in s;
  }

  lemma DigitsBlanks(s: string)
    requires AllDigits(s)
    ensures Blanks(s) == 0
  {
    assert ' ' !in s;
  }

  /** The tags of the metadata text, cut at their spaces. */
  lemma TagTexts()
    ensures MetaOpen == " " + "<!--" + (" " + "id:")
    ensures CreatedTag == " " + "created:" && DoneTag == " " + "done:" && MetaClose == " " + "-->"
  {
  }

  lemma TagWords()
    ensures ' ' !in "<!--" && ' ' !in "id:" && ' ' !in "created:" && ' ' !in "done:" && ' ' !in "-->"
  {
  }

  lemma OneBlankThen(w: string)
    requires ' ' !in w
    ensures Blanks(" " + w) == 1
  {
  }

  /** The opener ` <!-- id:` holds two spaces; each other tag holds one. */
  lemma TagBlanks()
    ensures Blanks(MetaOpen) == 2 && Blanks(CreatedTag) == 1 && Blanks(DoneTag) == 1 && Blanks(MetaClose) == 1
  {
    TagTexts();
    TagWords();
    OneBlankThen("id:");
    OneBlankThen("created:");
    OneBlankThen("done:");
    OneBlankThen("-->");
  }

  /** A metadata text holds four spaces, five with a completion time: its groups hold none. */
  lemma MetaBlanks(m: Meta)
    requires WellFormedMeta(m)
    ensures Blanks(MetaText(m)) == if m.done.Some? then 5 else 4
  {
    TagBlanks();
    DigitsBlanks(m.id);
    NoSpaceBlanks(m.created);
    if m.done.Some? {
      NoSpaceBlanks(m.done.value);
    }
  }

  /**
   * A non-empty text followed by a metadata text is no metadata text. A prefix
   * shorter than the opener ` <!-- id:` would shift the opener against itself;
   * a longer one holds the opener's two spaces on top of the four or more of
   * the metadata after it, more than any metadata text holds.
   */
  lemma NoMetaAfterPrefix(t: string, m: Meta, m': Meta)
    requires t != [] && WellFormedMeta(m) && WellFormedMeta(m')
    ensures t + MetaText(m) != MetaText(m')
  {
    var x, y, z := MetaText(m), t + MetaText(m), MetaText(m');
    assert x[..9] == MetaOpen && z[..9] == MetaOpen;
    if |t| < 9 {
      var k := if |t| == 5 then 6 else |t|;
      assert y[k] == x[k - |t|];
      assert z[k] == MetaOpen[k];
    } else if t[..9] != MetaOpen {
      assert y[..9] == t[..9];
    } else {
      assert t == MetaOpen + t[9..];
      TagBlanks();
      MetaBlanks(m);
      MetaBlanks(m');
    }
  }

  /** The lazy search from `k` stops at `n` when the title can end at `n` and nowhere before it. */
  lemma FirstTitleEndAt(rest: string, k: nat, n: nat)
    requires k <= n <= |rest| && TitleEndsAt(rest, n)
    requires forall j :: k <= j < n ==> !TitleEndsAt(rest, j)
    ensures FirstTitleEnd(rest, k) == Some(n)
  {
  }

  /** In a line built from groups, the title can end where it really ends. */
  lemma TitleEndsAtOwn(c: Captures)
    requires WellFormedCaptures(c)
    ensures |c.title| <= |RecordText(c)[6..]| && TitleEndsAt(RecordText(c)[6..], |c.title|)
  {
    RecordTextParts(c);
    var rest := RecordText(c)[6..];
    assert rest[..|c.title|] == c.title;
    assert rest[|c.title|..] == MetaText(c.meta);
    MatchMetaComplete(c.meta);
  }

  /** In a line built from groups, the title cannot end any earlier than it does. */
  lemma NoEarlierTitleEnd(c: Captures, j: nat)
    requires WellFormedCaptures(c) && 1 <= j < |c.title|
    ensures j <= |RecordText(c)[6..]| && !TitleEndsAt(RecordText(c)[6..], j)
  {
    RecordTextParts(c);
    var rest := RecordText(c)[6..];
    assert rest[j..] == c.title[j..] + MetaText(c.meta);
    var r := MatchMeta(rest[j..]);
    if r.Some? {
      NoMetaAfterPrefix(c.title[j..], c.meta, r.value);
    }
  }

  /** A record built from well-formed groups is matched with exactly those groups, whatever its title holds. */
  lemma MatchRecordOfText(c: Captures)
    requires WellFormedCaptures(c)
    ensures MatchRecord(RecordText(c)) == Some(c)
  {
    var line := RecordText(c);
    RecordTextParts(c);
    var rest := line[6..];
    var n := |c.title|;
    TitleEndsAtOwn(c);
    forall j | 1 <= j < n
      ensures !TitleEndsAt(rest, j)
    {
      NoEarlierTitleEnd(c, j);
    }
    FirstTitleEndAt(rest, 1, n);
    assert rest[..n] == c.title;
    assert rest[n..] == MetaText(c.meta);
    MatchMetaComplete(c.meta);
  }
}
