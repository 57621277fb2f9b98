/**
 * The asset list of modules/utils/ipc-handlers.js `handleSpooferAction`: one
 * entry per line written `[id] [name] [User123]` or `[id] [name] [Group456]`,
 * an optional trailing comma, and the creators the entries name.
 *
 * The regular expression `^\[([^\]]+)\]\s*\[([^\]]+)\]\s*\[([^\]]+)\],?$` is
 * modelled as a deterministic matcher (a field ends at its first `]`, and the
 * white space between fields is followed by `[`, so there is never a choice),
 * and proved to accept exactly the renderings of well-formed triples.
 */
module AssetList {

  import opened Wrappers
  import opened JsText

  datatype CreatorType = User | Group

  /** The creator key (type, a colon, then the id) of `placeIdMap` and of the creator groups. */
  datatype CreatorKey = CreatorKey(creatorType: CreatorType, creatorId: string)

  datatype AssetEntry = AssetEntry(id: string, name: string, creatorType: CreatorType, creatorId: string)

  function KeyOf(e: AssetEntry): CreatorKey {
    CreatorKey(e.creatorType, e.creatorId)
  }

  function TypeName(t: CreatorType): string {
    match t
    case User => "user"
    case Group => "group"
  }

  function KeyString(k: CreatorKey): string {
    TypeName(k.creatorType) + ":" + k.creatorId
  }

  /**
   * The textual key names the creator exactly: two keys with equal strings are
   * equal, so the model keys its maps by `CreatorKey` values.
   */
  lemma KeyStringInjective(a: CreatorKey, b: CreatorKey)
    requires KeyString(a) == KeyString(b)
    ensures a == b
  {
    assert KeyString(a)[0] == (if a.creatorType == User then 'u' else 'g');
    assert KeyString(b)[0] == (if b.creatorType == User then 'u' else 'g');
    if a.creatorType == b.creatorType {
      var n := |TypeName(a.creatorType) + ":"|;
      assert a.creatorId == KeyString(a)[n..];
      assert b.creatorId == KeyString(b)[n..];
    }
  }

  // ------------------------------------------------------------- the matcher

  /** The three bracketed fields of a matching line and what lies between them. */
  datatype Triple = Triple(first: string, gap1: string, second: string, gap2: string, third: string, comma: bool)

  /** `[^\]]+`: a non-empty run without a closing bracket. */
  predicate FieldOk(f: string) {
    f != [] && ']' !in f
  }

  /** `\s*` */
  predicate GapOk(g: string) {
    forall k :: 0 <= k < |g| ==> IsSpace(g[k])
  }

  predicate WellFormed(t: Triple) {
    FieldOk(t.first) && FieldOk(t.second) && FieldOk(t.third) && GapOk(t.gap1) && GapOk(t.gap2)
  }

  function Bracket(f: string): string {
    "[" + f + "]"
  }

  function RenderTriple(t: Triple): string {
    Bracket(t.first) + (t.gap1 + (Bracket(t.second) + (t.gap2 + (Bracket(t.third) + (if t.comma then "," else "")))))
  }

  /** The index of the first `]` at or after `i`, or `|s|` when there is none. */
  function CloseAt(s: string, i: nat): (j: nat)
    requires i <= |s|
    ensures i <= j <= |s|
    ensures forall k :: i <= k < j ==> s[k] != ']'
    ensures j < |s| ==> s[j] == ']'
    decreases |s| - i
  {
    if i == |s| || s[i] == ']' then i else CloseAt(s, i + 1)
  }

  /** `\[([^\]]+)\]` at the start of `s`: the field and what follows the closing bracket. */
  function Bracketed(s: string): Option<(string, string)> {
    if s == [] || s[0] != '[' then None
    else
      var c := CloseAt(s, 1);
      if c == |s| || c == 1 then None else Some((s[1..c], s[c + 1..]))
  }

  /** `\s*` at the start of `s` (greedy): the white space and what follows it. */
  function Spaces(s: string): (p: (string, string))
    ensures p.0 + p.1 == s && GapOk(p.0) && (p.1 == [] || !IsSpace(p.1[0]))
  {
    if s != [] && IsSpace(s[0]) then
      var r := Spaces(s[1..]);
      assert [s[0]] + r.0 + r.1 == s;
      ([s[0]] + r.0, r.1)
    else ([], s)
  }

  /** The regular expression of the asset list, anchored at both ends. */
  function MatchTriple(s: string): Option<Triple> {
    match Bracketed(s)
    case None => None
    case Some(b1) =>
      var (gap1, r1) := Spaces(b1.1);
      match Bracketed(r1)
      case None => None
      case Some(b2) =>
        var (gap2, r2) := Spaces(b2.1);
        match Bracketed(r2)
        case None => None
        case Some(b3) =>
          if b3.1 == [] then Some(Triple(b1.0, gap1, b2.0, gap2, b3.0, false))
          else if b3.1 == "," then Some(Triple(b1.0, gap1, b2.0, gap2, b3.0, true))
          else None
  }

  lemma CloseAtIs(s: string, i: nat, j: nat)
    requires i <= j < |s| && s[j] == ']'
    requires forall k :: i <= k < j ==> s[k] != ']'
    ensures CloseAt(s, i) == j
  {
  }

  lemma BracketedOfBracket(f: string, rest: string)
    requires FieldOk(f)
    ensures Bracketed(Bracket(f) + rest) == Some((f, rest))
  {
    var s := Bracket(f) + rest;
    CloseAtIs(s, 1, |f| + 1);
    assert s[1..|f| + 1] == f;
    assert s[|f| + 2..] == rest;
  }

  lemma BracketedIsBracket(s: string)
    requires Bracketed(s).Some?
    ensures FieldOk(Bracketed(s).value.0) && s == Bracket(Bracketed(s).value.0) + Bracketed(s).value.1
  {
    var c := CloseAt(s, 1);
    assert s == s[..1] + s[1..c] + s[c..c + 1] + s[c + 1..];
  }

  lemma {:induction false} SpacesOfGap(g: string, rest: string)
    requires GapOk(g) && (rest == [] || !IsSpace(rest[0]))
    ensures Spaces(g + rest) == (g, rest)
  {
    if g != [] {
      assert (g + rest)[1..] == g[1..] + rest;
      SpacesOfGap(g[1..], rest);
      assert [g[0]] + g[1..] == g;
    } else {
      assert g + rest == rest;
    }
  }

  /** Every well-formed triple, written out, matches, and the match gives it back. */
  lemma MatchRenderTriple(t: Triple)
    requires WellFormed(t)
    ensures MatchTriple(RenderTriple(t)) == Some(t)
  {
    var tail := if t.comma then "," else "";
    var r2 := Bracket(t.third) + tail;
    var r1 := Bracket(t.second) + (t.gap2 + r2);
    BracketedOfBracket(t.first, t.gap1 + r1);
    SpacesOfGap(t.gap1, r1);
    BracketedOfBracket(t.second, t.gap2 + r2);
    SpacesOfGap(t.gap2, r2);
    BracketedOfBracket(t.third, tail);
  }

  /** Whatever matches is the rendering of a well-formed triple. */
  lemma MatchIsRendering(s: string)
    requires MatchTriple(s).Some?
    ensures WellFormed(MatchTriple(s).value) && RenderTriple(MatchTriple(s).value) == s
  {
    var b1 := Bracketed(s).value;
    BracketedIsBracket(s);
    var (gap1, r1) := Spaces(b1.1);
    var b2 := Bracketed(r1).value;
    BracketedIsBracket(r1);
    var (gap2, r2) := Spaces(b2.1);
    var b3 := Bracketed(r2).value;
    BracketedIsBracket(r2);
    assert b3.1 == if MatchTriple(s).value.comma then "," else "";
  }

  // ------------------------------------------------------------ entry lines

  /**
   * One line of the list: trimmed, matched, its fields trimmed; the third
   * field must start with `User` or `Group` (case-sensitive) and the creator
   * id is every digit that follows, wherever it stands.
   */
  function ParseLine(line: string): (r: Option<AssetEntry>)
    ensures r.Some? ==> Tidy(r.value)
  {
    var trimmed := Trim(line);
    if trimmed == [] then None
    else
      match MatchTriple(trimmed)
      case None => None
      case Some(m) => EntryOf(m)
  }

  /** The entry a matched line describes, once its fields are trimmed. */
  function EntryOf(m: Triple): (r: Option<AssetEntry>)
    ensures r.Some? ==> Tidy(r.value)
  {
    var id := Trim(m.first);
    var name := Trim(m.second);
    var third := Trim(m.third);
    if StartsWith(third, "User") then Some(AssetEntry(id, name, User, DigitsOnly(third[4..])))
    else if StartsWith(third, "Group") then Some(AssetEntry(id, name, Group, DigitsOnly(third[5..])))
    else None
  }

  /** A parsed entry: its id, trimmed, starts with a non-space character, and its creator id is all digits. */
  predicate Tidy(e: AssetEntry) {
    (e.id == [] || !IsSpace(e.id[0])) && AllDigits(e.creatorId)
  }

  /** An entry is kept when a line produced one with a non-empty id and a non-empty creator id. */
  predicate Kept(r: Option<AssetEntry>) {
    r.Some? && r.value.id != [] && r.value.creatorId != []
  }

  /** Every entry has a non-empty id and a non-empty creator id. */
  predicate AllNamed(entries: seq<AssetEntry>) {
    forall j :: 0 <= j < |entries| ==> entries[j].id != [] && entries[j].creatorId != []
  }

  predicate AllTidy(entries: seq<AssetEntry>) {
    forall j :: 0 <= j < |entries| ==> Tidy(entries[j])
  }

  predicate ResultsTidy(rs: seq<Option<AssetEntry>>) {
    forall j :: 0 <= j < |rs| && rs[j].Some? ==> Tidy(rs[j].value)
  }

  /** `.map(...)`: the result of every line, in order. */
  function ParseEach(lines: seq<string>): (rs: seq<Option<AssetEntry>>)
    ensures |rs| == |lines| && forall j :: 0 <= j < |lines| ==> rs[j] == ParseLine(lines[j])
  {
    seq(|lines|, j requires 0 <= j < |lines| => ParseLine(lines[j]))
  }

  /** `.filter(...)`: the kept entries, in order. */
  function KeepEntries(rs: seq<Option<AssetEntry>>): (entries: seq<AssetEntry>)
    ensures |entries| <= |rs|
    ensures AllNamed(entries)
    ensures ResultsTidy(rs) ==> AllTidy(entries)
  {
    if rs == [] then []
    else (if Kept(rs[0]) then [rs[0].value] else []) + KeepEntries(rs[1..])
  }

  function ParseLines(lines: seq<string>): (entries: seq<AssetEntry>)
    ensures |entries| <= |lines|
    ensures AllNamed(entries) && AllTidy(entries)
  {
    KeepEntries(ParseEach(lines))
  }

  /** The asset list text (missing text reads as empty) split into lines, each parsed, the kept entries in order. */
  function ParseAssetList(text: string): (entries: seq<AssetEntry>)
    ensures AllNamed(entries) && AllTidy(entries)
  {
    ParseLines(Split(text, '\n'))
  }

  /** A field of a written entry: no brackets closing it, no line break, no white space at its edges. */
  predicate CleanField(f: string) {
    f != [] && ']' !in f && '\n' !in f && !IsSpace(f[0]) && !IsSpace(f[|f| - 1])
  }

  /** An entry the list format can carry. */
  predicate Writable(e: AssetEntry) {
    CleanField(e.id) && CleanField(e.name) && e.creatorId != [] && AllDigits(e.creatorId)
  }

  function TypeTag(t: CreatorType): (tag: string)
    ensures |tag| == (if t == User then 4 else 5)
  {
    match t
    case User => "User"
    case Group => "Group"
  }

  /** An entry written the way the list expects it: `[id] [name] [User123]`. */
  function FormatEntry(e: AssetEntry): string {
    RenderTriple(Triple(e.id, " ", e.name, " ", TypeTag(e.creatorType) + e.creatorId, false))
  }

  /** The third field of a written entry: `User` or `Group`, then the creator id. */
  lemma WrittenThird(e: AssetEntry)
    requires Writable(e)
    ensures var third := TypeTag(e.creatorType) + e.creatorId;
      && FieldOk(third) && '\n' !in third
      && !IsSpace(third[0]) && !IsSpace(third[|third| - 1])
      && third[|TypeTag(e.creatorType)|..] == e.creatorId
  {
    var tag := TypeTag(e.creatorType);
    var third := tag + e.creatorId;
    forall k | 0 <= k < |third|
      ensures third[k] != ']' && third[k] != '\n'
    {
      if k >= |tag| {
        assert third[k] == e.creatorId[k - |tag|];
      }
    }
    assert IsDigit(third[|third| - 1]);
  }

  lemma EntryOfWritten(e: AssetEntry)
    requires Writable(e)
    ensures EntryOf(Triple(e.id, " ", e.name, " ", TypeTag(e.creatorType) + e.creatorId, false)) == Some(e)
  {
    var tag := TypeTag(e.creatorType);
    var third := tag + e.creatorId;
    WrittenThird(e);
    assert Trim(e.id) == e.id by { TrimOfTrimmed(e.id); }
    assert Trim(e.name) == e.name by { TrimOfTrimmed(e.name); }
    assert Trim(third) == third by { TrimOfTrimmed(third); }
    assert DigitsOnly(third[|tag|..]) == e.creatorId;
    if e.creatorType == User {
      assert StartsWith(third, "User") by { assert third[..4] == tag; }
    } else {
      assert !StartsWith(third, "User") by { assert third[0] == 'G'; }
      assert StartsWith(third, "Group") by { assert third[..5] == tag; }
    }
  }

  /** Parsing a written entry gives the entry back. */
  lemma ParseFormatEntry(e: AssetEntry)
    requires Writable(e)
    ensures ParseLine(FormatEntry(e)) == Some(e)
  {
    var t := Triple(e.id, " ", e.name, " ", TypeTag(e.creatorType) + e.creatorId, false);
    WrittenMatches(e);
    WrittenTrimmed(e);
    EntryOfWritten(e);
    ParseOfMatched(FormatEntry(e), t, e);
  }

  lemma WrittenMatches(e: AssetEntry)
    requires Writable(e)
    ensures MatchTriple(FormatEntry(e)) == Some(Triple(e.id, " ", e.name, " ", TypeTag(e.creatorType) + e.creatorId, false))
  {
    var t := Triple(e.id, " ", e.name, " ", TypeTag(e.creatorType) + e.creatorId, false);
    WrittenThird(e);
    assert WellFormed(t);
    MatchRenderTriple(t);
  }

  lemma WrittenTrimmed(e: AssetEntry)
    ensures Trim(FormatEntry(e)) == FormatEntry(e) != []
  {
    var s := FormatEntry(e);
    assert s[0] == '[' && s[|s| - 1] == ']';
    TrimOfTrimmed(s);
  }

  lemma ParseOfMatched(s: string, t: Triple, e: AssetEntry)
    requires Trim(s) == s != [] && MatchTriple(s) == Some(t) && EntryOf(t) == Some(e)
    ensures ParseLine(s) == Some(e)
  {
  }

  /** Lines without a line break of their own, joined by `\n`. */
  function FormatList(entries: seq<AssetEntry>): string
    requires entries != []
  {
    JoinWith(FormatLines(entries), '\n')
  }

  function FormatLines(entries: seq<AssetEntry>): (lines: seq<string>)
    ensures |lines| == |entries|
    ensures forall j :: 0 <= j < |entries| ==> lines[j] == FormatEntry(entries[j])
  {
    seq(|entries|, j requires 0 <= j < |entries| => FormatEntry(entries[j]))
  }

  function AllSome(entries: seq<AssetEntry>): (rs: seq<Option<AssetEntry>>)
    ensures |rs| == |entries| && forall j :: 0 <= j < |entries| ==> rs[j] == Some(entries[j])
  {
    seq(|entries|, j requires 0 <= j < |entries| => Some(entries[j]))
  }

  lemma {:induction false} KeepAllSome(entries: seq<AssetEntry>)
    requires forall j :: 0 <= j < |entries| ==> entries[j].id != [] && entries[j].creatorId != []
    ensures KeepEntries(AllSome(entries)) == entries
  {
    if entries != [] {
      assert AllSome(entries)[1..] == AllSome(entries[1..]);
      KeepAllSome(entries[1..]);
      assert [entries[0]] + entries[1..] == entries;
    }
  }

  lemma ParseFormattedLines(entries: seq<AssetEntry>)
    requires forall j :: 0 <= j < |entries| ==> Writable(entries[j])
    ensures ParseLines(FormatLines(entries)) == entries
  {
    var lines := FormatLines(entries);
    forall j | 0 <= j < |entries|
      ensures ParseLine(lines[j]) == Some(entries[j])
    {
      ParseFormatEntry(entries[j]);
    }
    assert ParseEach(lines) == AllSome(entries);
    KeepAllSome(entries);
  }

  /** The parser reads back every list of writable entries, one per line. */
  lemma ParseFormattedList(entries: seq<AssetEntry>)
    requires entries != []
    requires forall j :: 0 <= j < |entries| ==> Writable(entries[j])
    ensures ParseAssetList(FormatList(entries)) == entries
  {
    var lines := FormatLines(entries);
    forall j | 0 <= j < |lines|
      ensures '\n' !in lines[j]
    {
      WrittenThird(entries[j]);
    }
    JoinSplit(lines, '\n');
    ParseFormattedLines(entries);
  }

  /** A well-formed line is read. */
  lemma ParseExampleEntry()
    ensures ParseAssetList("[123] [MyWalk] [User555]") == [AssetEntry("123", "MyWalk", User, "555")]
  {
    var e := AssetEntry("123", "MyWalk", User, "555");
    ExampleEntryWritable(e);
    ExampleEntryFormatted(e);
    ParseFormattedList([e]);
  }

  lemma ExampleEntryWritable(e: AssetEntry)
    requires e == AssetEntry("123", "MyWalk", User, "555")
    ensures Writable(e)
  {
    assert CleanField(e.id) && CleanField(e.name);
  }

  lemma ExampleEntryFormatted(e: AssetEntry)
    requires e == AssetEntry("123", "MyWalk", User, "555")
    ensures FormatList([e]) == "[123] [MyWalk] [User555]"
  {
    assert FormatLines([e]) == [FormatEntry(e)];
    assert TypeTag(User) + "555" == "User555";
    ExampleTail();
    ExampleHead();
  }

  lemma ExampleTail()
    ensures Bracket("MyWalk") + (" " + (Bracket("User555") + "")) == "[MyWalk] [User555]"
  {
    assert Bracket("User555") + "" == "[User555]";
  }

  lemma ExampleHead()
    ensures Bracket("123") + (" " + "[MyWalk] [User555]") == "[123] [MyWalk] [User555]"
  {
  }

  /** What a parsed line holds: the trimmed line renders a triple the line regex accepts, and the entry reads its fields. */
  lemma ParseLineReadsFields(line: string)
    requires ParseLine(line).Some?
    ensures MatchTriple(Trim(line)).Some?
    ensures var e := ParseLine(line).value; var t := MatchTriple(Trim(line)).value;
      && WellFormed(t) && RenderTriple(t) == Trim(line)
      && e.id == Trim(t.first) && e.name == Trim(t.second)
      && StartsWith(Trim(t.third), TypeTag(e.creatorType))
      && e.creatorId == DigitsOnly(Trim(t.third)[|TypeTag(e.creatorType)|..])
  {
    MatchIsRendering(Trim(line));
    EntryOfReadsFields(MatchTriple(Trim(line)).value);
  }

  /** The entry of a matched line is read from its trimmed fields, after the creator type's tag. */
  lemma EntryOfReadsFields(t: Triple)
    requires EntryOf(t).Some?
    ensures var e := EntryOf(t).value;
      && e.id == Trim(t.first) && e.name == Trim(t.second)
      && StartsWith(Trim(t.third), TypeTag(e.creatorType))
      && e.creatorId == DigitsOnly(Trim(t.third)[|TypeTag(e.creatorType)|..])
  {
    if !StartsWith(Trim(t.third), "User") {
      assert StartsWith(Trim(t.third), "Group");
    }
  }

  /** One line's result is kept exactly when it is an entry with an id and a creator id. */
  lemma KeepEntriesSingle(r: Option<AssetEntry>)
    ensures KeepEntries([r]) == if Kept(r) then [r.value] else []
  {
    assert [r][1..] == [];
  }

  /** Keeping entries works line by line: the kept entries of two runs of lines are those of each run, in order. */
  lemma {:induction false} KeepEntriesAppend(a: seq<Option<AssetEntry>>, b: seq<Option<AssetEntry>>)
    ensures KeepEntries(a + b) == KeepEntries(a) + KeepEntries(b)
  {
    if a == [] {
      assert a + b == b;
    } else {
      var r, rest := a[0], a[1..];
      HeadAndRest(a, b);
      KeepEntriesCons(r, rest + b);
      KeepEntriesCons(r, rest);
      KeepEntriesAppend(rest, b);
      ConcatAssoc(KeepEntries([r]), KeepEntries(rest), KeepEntries(b));
    }
  }

  lemma HeadAndRest<T>(a: seq<T>, b: seq<T>)
    requires a != []
    ensures a == [a[0]] + a[1..] && a + b == [a[0]] + (a[1..] + b)
  {
  }

  lemma ConcatAssoc<T>(x: seq<T>, y: seq<T>, z: seq<T>)
    ensures x + (y + z) == (x + y) + z
  {
  }

  lemma KeepEntriesCons(r: Option<AssetEntry>, rest: seq<Option<AssetEntry>>)
    ensures KeepEntries([r] + rest) == KeepEntries([r]) + KeepEntries(rest)
  {
    assert ([r] + rest)[1..] == rest;
    KeepEntriesSingle(r);
  }

  lemma ParseEachAppend(a: seq<string>, b: seq<string>)
    ensures ParseEach(a + b) == ParseEach(a) + ParseEach(b)
  {
    assert forall j :: 0 <= j < |a| + |b| ==> (a + b)[j] == if j < |a| then a[j] else b[j - |a|];
  }

  /** The entries of two runs of lines are the entries of each run, in order. */
  lemma ParseLinesAppend(a: seq<string>, b: seq<string>)
    ensures ParseLines(a + b) == ParseLines(a) + ParseLines(b)
  {
    ParseEachAppend(a, b);
    KeepEntriesAppend(ParseEach(a), ParseEach(b));
  }

  /** A line that yields no kept entry is dropped and leaves the entries of the other lines as they are. */
  lemma BadLineDropped(before: seq<string>, bad: string, after: seq<string>)
    requires !Kept(ParseLine(bad))
    ensures ParseLines(before + [bad] + after) == ParseLines(before) + ParseLines(after)
  {
    assert ParseLines([bad]) == [] by {
      ParseEachSingle(bad);
      KeepEntriesSingle(ParseLine(bad));
    }
    ParseLinesAppend(before + [bad], after);
    ParseLinesAppend(before, [bad]);
    assert ParseLines(before + [bad]) == ParseLines(before);
  }

  /** The list is read line by line: lines without a line break, joined by `\n`, give the entries of the lines. */
  lemma ParseJoinedLines(lines: seq<string>)
    requires |lines| >= 1
    requires forall j :: 0 <= j < |lines| ==> '\n' !in lines[j]
    ensures ParseAssetList(JoinWith(lines, '\n')) == ParseLines(lines)
  {
    JoinSplit(lines, '\n');
  }

  /** A written entry is one line of the list. */
  lemma WrittenHasNoBreak(e: AssetEntry)
    requires Writable(e)
    ensures '\n' !in FormatEntry(e)
  {
    WrittenThird(e);
  }

  /** A line that parses to a kept entry, alone in a list, gives that entry. */
  lemma LineRead(line: string, e: AssetEntry)
    requires ParseLine(line) == Some(e) && e.id != [] && e.creatorId != []
    ensures ParseLines([line]) == [e]
  {
    ParseEachSingle(line);
    KeepEntriesSingle(Some(e));
  }

  lemma ParseEachSingle(line: string)
    ensures ParseEach([line]) == [ParseLine(line)]
  {
  }

  /** Two good lines around a dropped one give the two entries in order. */
  lemma ThreeLines(l1: string, bad: string, l2: string, e1: AssetEntry, e2: AssetEntry)
    requires ParseLines([l1]) == [e1] && ParseLines([l2]) == [e2]
    requires !Kept(ParseLine(bad))
    ensures ParseLines([l1, bad, l2]) == [e1, e2]
  {
    BadLineDropped([l1], bad, [l2]);
    DisplayOfThree(l1, bad, l2);
    DisplayOfTwo(e1, e2);
  }

  lemma DisplayOfThree<T>(x: T, y: T, z: T)
    ensures [x, y, z] == [x] + [y] + [z]
  {
  }

  lemma DisplayOfTwo<T>(x: T, y: T)
    ensures [x, y] == [x] + [y]
  {
  }

  /** The same, with the three lines joined by `\n`. */
  lemma GoodBadGood(l1: string, bad: string, l2: string, e1: AssetEntry, e2: AssetEntry)
    requires ParseLines([l1]) == [e1] && ParseLines([l2]) == [e2]
    requires '\n' !in l1 && '\n' !in bad && '\n' !in l2
    requires !Kept(ParseLine(bad))
    ensures ParseAssetList(JoinWith([l1, bad, l2], '\n')) == [e1, e2]
  {
    ThreeJoinedLines(l1, bad, l2);
    ThreeLines(l1, bad, l2, e1, e2);
  }

  lemma ThreeJoinedLines(l1: string, l2: string, l3: string)
    requires '\n' !in l1 && '\n' !in l2 && '\n' !in l3
    ensures ParseAssetList(JoinWith([l1, l2, l3], '\n')) == ParseLines([l1, l2, l3])
  {
    ParseJoinedLines([l1, l2, l3]);
  }

  /**
   * A malformed line between two written entries is dropped and both entries
   * are read, in order.
   */
  lemma BadLineBetweenEntries(e1: AssetEntry, bad: string, e2: AssetEntry)
    requires Writable(e1) && Writable(e2)
    requires '\n' !in bad && !Kept(ParseLine(bad))
    ensures ParseAssetList(JoinWith([FormatEntry(e1), bad, FormatEntry(e2)], '\n')) == [e1, e2]
  {
    WrittenHasNoBreak(e1);
    WrittenHasNoBreak(e2);
    ParseFormatEntry(e1);
    ParseFormatEntry(e2);
    LineRead(FormatEntry(e1), e1);
    LineRead(FormatEntry(e2), e2);
    GoodBadGood(FormatEntry(e1), bad, FormatEntry(e2), e1, e2);
  }

  /** `foo` is such a line. */
  lemma FooDropped(line: string)
    requires line == "foo"
    ensures '\n' !in line && !Kept(ParseLine(line))
  {
    assert line[0] == 'f' && line[2] == 'o';
    TrimOfTrimmed(line);
    UnbracketedLineDropped(line);
  }

  /** A line that is blank or does not start with `[` once trimmed contributes no entry. */
  lemma UnbracketedLineDropped(line: string)
    requires Trim(line) == [] || Trim(line)[0] != '['
    ensures ParseLine(line) == None
  {
  }

  // ---------------------------------------------------------------- creators

  /** Distinct elements, first occurrences in order, as a JavaScript `Set` keeps them. */
  function Dedup(keys: seq<CreatorKey>): (d: seq<CreatorKey>)
    ensures forall i, j :: 0 <= i < j < |d| ==> d[i] != d[j]
    ensures forall k :: k in d <==> k in keys
    ensures |d| <= |keys|
  {
    if keys == [] then []
    else
      var prior := Dedup(keys[..|keys| - 1]);
      var last := keys[|keys| - 1];
      assert forall k :: k in keys <==> k in keys[..|keys| - 1] || k == last;
      if last in prior then prior else prior + [last]
  }

  function KeysOf(entries: seq<AssetEntry>): (keys: seq<CreatorKey>)
    ensures |keys| == |entries| && forall j :: 0 <= j < |keys| ==> keys[j] == KeyOf(entries[j])
  {
    seq(|entries|, j requires 0 <= j < |entries| => KeyOf(entries[j]))
  }

  /** The distinct creators of the entries, in order of first appearance. */
  function UniqueCreators(entries: seq<AssetEntry>): (creators: seq<CreatorKey>)
    ensures forall i, j :: 0 <= i < j < |creators| ==> creators[i] != creators[j]
    ensures forall e :: e in entries ==> KeyOf(e) in creators
    ensures forall k :: k in creators ==> exists e :: e in entries && KeyOf(e) == k
  {
    var keys := KeysOf(entries);
    assert forall e :: e in entries ==> KeyOf(e) in keys;
    Dedup(keys)
  }
}
