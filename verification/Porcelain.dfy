/** Parsing NUL-separated git status output. */
module Porcelain {
  import opened Basics

  datatype Entry = Entry(code: string, path: string, origPath: Option<string>)

  const NUL := '\0'

  predicate HasNoNul(text: string) {
    forall i :: 0 <= i < |text| ==> text[i] != NUL
  }

  /** The pieces between NULs; one more than there are NULs. */
  function Split(text: string): (parts: seq<string>)
    ensures |parts| >= 1
  {
    if text == "" then [""]
    else
      var rest := Split(text[1..]);
      if text[0] == NUL then [""] + rest else [[text[0]] + rest[0]] + rest[1..]
  }

  function ToSlash(c: char): char {
    if c == '\\' then '/' else c
  }

  function Normalize(path: string): string {
    seq(|path|, i requires 0 <= i < |path| => ToSlash(path[i]))
  }

  predicate IsRenameOrCopy(code: string) {
    'R' in code || 'C' in code
  }

  const CODE_LENGTH := 2

  /** The entry that starts at the first part. A rename or copy takes a second part; the first path is taken as the original. */
  function EntryAt(parts: seq<string>): Entry
    requires parts != [] && |parts[0]| > CODE_LENGTH
  {
    var code, first := parts[0][..CODE_LENGTH], Normalize(parts[0][CODE_LENGTH + 1..]);
    if IsRenameOrCopy(code) then Entry(code, Normalize(if |parts| > 1 then parts[1] else ""), Some(first))
    else Entry(code, first, None)
  }

  /** Parts too short to hold a code are passed over. */
  function ParseParts(parts: seq<string>): seq<Entry>
    decreases |parts|
  {
    if parts == [] then []
    else if |parts[0]| <= CODE_LENGTH then ParseParts(parts[1..])
    else [EntryAt(parts)] + ParseParts(Rest(parts, if EntryAt(parts).origPath.Some? then 2 else 1))
  }

  function Rest(parts: seq<string>, index: nat): (r: seq<string>)
    ensures |r| == if index <= |parts| then |parts| - index else 0
  {
    if index <= |parts| then parts[index..] else []
  }

  function Parse(output: string): seq<Entry> {
    ParseParts(Split(output))
  }

  lemma ParseStep(parts: seq<string>, index: nat)
    requires index < |parts|
    ensures var raw := parts[index];
      ParseParts(Rest(parts, index)) ==
        if |raw| <= CODE_LENGTH then ParseParts(Rest(parts, index + 1))
        else if IsRenameOrCopy(raw[..CODE_LENGTH]) then
          [Entry(raw[..CODE_LENGTH], Normalize(if index + 1 < |parts| then parts[index + 1] else ""), Some(Normalize(raw[CODE_LENGTH + 1..])))]
          + ParseParts(Rest(parts, index + 2))
        else [Entry(raw[..CODE_LENGTH], Normalize(raw[CODE_LENGTH + 1..]), None)] + ParseParts(Rest(parts, index + 1))
  {
    hide Normalize, IsRenameOrCopy;
    var rest := Rest(parts, index);
    assert rest[1..] == Rest(parts, index + 1);
    assert Rest(rest, 1) == Rest(parts, index + 1) && Rest(rest, 2) == Rest(parts, index + 2);
  }

  method ParseGitPorcelain(output: string) returns (entries: seq<Entry>)
    ensures entries == Parse(output)
  {
    hide ParseParts, Normalize, Rest, IsRenameOrCopy;
    entries := [];
    var parts := Split(output);
    var index := 0;
    WholeRest(parts);
    while index < |parts|
      invariant 0 <= index
      invariant entries + ParseParts(Rest(parts, index)) == Parse(output)
    {
      var raw := parts[index];
      ParseStep(parts, index);
      index := index + 1;
      if |raw| <= CODE_LENGTH {
        continue;
      }
      var code, first := raw[..CODE_LENGTH], Normalize(raw[CODE_LENGTH + 1..]);
      var entry := Entry(code, first, None);
      if IsRenameOrCopy(code) {
        var dest := if index < |parts| then parts[index] else "";
        index := index + 1;
        entry := Entry(code, Normalize(dest), Some(first));
      }
      Regroup(entries, entry, ParseParts(Rest(parts, index)));
      entries := entries + [entry];
    }
    NothingLeft(parts, index);
  }

  lemma Regroup(before: seq<Entry>, entry: Entry, after: seq<Entry>)
    ensures before + ([entry] + after) == (before + [entry]) + after
  {
  }

  lemma WholeRest(parts: seq<string>)
    ensures Rest(parts, 0) == parts
  {
  }

  lemma NothingLeft(parts: seq<string>, index: nat)
    requires index >= |parts|
    ensures ParseParts(Rest(parts, index)) == []
  {
  }

  /** An entry git could have written: a two-character code, clean paths, and an original exactly for renames and copies. */
  predicate IsWellFormed(e: Entry) {
    && |e.code| == CODE_LENGTH && HasNoNul(e.code) && IsClean(e.path)
    && (e.origPath.Some? <==> IsRenameOrCopy(e.code))
    && (e.origPath.Some? ==> IsClean(e.origPath.value))
  }

  predicate IsClean(path: string) {
    HasNoNul(path) && forall i :: 0 <= i < |path| ==> path[i] != '\\'
  }

  /** The text the parser reads back: the original path, if any, comes first. */
  function Print(e: Entry): string {
    if e.origPath.Some? then e.code + " " + e.origPath.value + [NUL] + e.path + [NUL]
    else e.code + " " + e.path + [NUL]
  }

  function PrintAll(entries: seq<Entry>): string {
    if entries == [] then "" else Print(entries[0]) + PrintAll(entries[1..])
  }

  lemma {:induction false} SplitAtNul(part: string, rest: string)
    requires HasNoNul(part)
    ensures Split(part + [NUL] + rest) == [part] + Split(rest)
  {
    var text := part + [NUL] + rest;
    if part == "" {
      assert text[1..] == rest;
    } else {
      assert text[1..] == part[1..] + [NUL] + rest;
      SplitAtNul(part[1..], rest);
      assert [part[0]] + part[1..] == part;
    }
  }

  lemma CleanIsNormal(path: string)
    requires IsClean(path)
    ensures Normalize(path) == path
  {
  }

  lemma NoNulConcat(a: string, b: string)
    requires HasNoNul(a) && HasNoNul(b)
    ensures HasNoNul(a + b)
  {
  }

  /** One printed entry is read back, whatever follows it. */
  lemma ParseOnePrinted(e: Entry, rest: string)
    requires IsWellFormed(e)
    ensures Parse(Print(e) + rest) == [e] + Parse(rest)
  {
    var first := if e.origPath.Some? then e.origPath.value else e.path;
    var head := e.code + " " + first;
    NoNulConcat(e.code, " ");
    NoNulConcat(e.code + " ", first);
    CleanIsNormal(first);
    CleanIsNormal(e.path);
    assert head[..CODE_LENGTH] == e.code && head[CODE_LENGTH + 1..] == first;
    hide Normalize, Split, IsClean, HasNoNul;
    if e.origPath.Some? {
      SplitPair(head, e.path, rest);
      assert Print(e) == head + [NUL] + e.path + [NUL];
      ParseHead([head, e.path], Split(rest));
    } else {
      SplitAtNul(head, rest);
      assert Print(e) + rest == head + [NUL] + rest;
      ParseHead([head], Split(rest));
    }
  }

  lemma SplitPair(a: string, b: string, rest: string)
    requires HasNoNul(a) && HasNoNul(b)
    ensures Split(a + [NUL] + b + [NUL] + rest) == [a, b] + Split(rest)
  {
    hide HasNoNul, Split;
    var after := b + [NUL] + rest;
    assert a + [NUL] + b + [NUL] + rest == a + [NUL] + after;
    SplitAtNul(a, after);
    SplitAtNul(b, rest);
    assert [a] + ([b] + Split(rest)) == [a, b] + Split(rest);
  }

  /** Parsing one entry's parts leaves the others to be parsed. */
  lemma ParseHead(head: seq<string>, rest: seq<string>)
    requires head != [] && |head[0]| > CODE_LENGTH && |head| == if IsRenameOrCopy(head[0][..CODE_LENGTH]) then 2 else 1
    ensures ParseParts(head + rest) == [EntryAt(head)] + ParseParts(rest)
  {
    hide Normalize;
    var parts := head + rest;
    assert parts[0] == head[0] && (|head| == 2 ==> parts[1] == head[1]);
    assert EntryAt(parts) == EntryAt(head);
    assert Rest(parts, |head|) == rest;
  }

  /** Parsing distributes over concatenation at entry boundaries. */
  lemma {:induction false} ParsingDistributes(entries: seq<Entry>, rest: string)
    requires forall i :: 0 <= i < |entries| ==> IsWellFormed(entries[i])
    ensures Parse(PrintAll(entries) + rest) == entries + Parse(rest)
  {
    hide Parse, Print, IsWellFormed;
    if entries == [] {
      assert PrintAll(entries) + rest == rest;
    } else {
      var tail := PrintAll(entries[1..]) + rest;
      assert PrintAll(entries) + rest == Print(entries[0]) + tail;
      ParseOnePrinted(entries[0], tail);
      ParsingDistributes(entries[1..], rest);
      assert entries == [entries[0]] + entries[1..];
    }
  }

  /** Reading back what was printed returns the entries. */
  lemma ParseUndoesPrint(entries: seq<Entry>)
    requires forall i :: 0 <= i < |entries| ==> IsWellFormed(entries[i])
    ensures Parse(PrintAll(entries)) == entries
  {
    assert PrintAll(entries) + "" == PrintAll(entries);
    ParsingDistributes(entries, "");
    assert Parse("") == [];
  }

  /** The text git itself writes: the new path of a rename or copy comes first. */
  function PrintAsGit(e: Entry): string {
    e.code + " " + e.path + [NUL] + if e.origPath.Some? then e.origPath.value + [NUL] else ""
  }

  function PrintAllAsGit(entries: seq<Entry>): string {
    if entries == [] then "" else PrintAsGit(entries[0]) + PrintAllAsGit(entries[1..])
  }

  /** New path and original exchanged. */
  function Swapped(e: Entry): Entry {
    if e.origPath.Some? then Entry(e.code, e.origPath.value, Some(e.path)) else e
  }

  function SwapAll(entries: seq<Entry>): seq<Entry> {
    seq(|entries|, i requires 0 <= i < |entries| => Swapped(entries[i]))
  }

  lemma {:induction false} GitPrintsSwapped(entries: seq<Entry>)
    ensures PrintAllAsGit(entries) == PrintAll(SwapAll(entries))
  {
    if entries == [] {
      assert PrintAllAsGit(entries) == "";
    } else {
      GitPrintsSwapped(entries[1..]);
      assert SwapAll(entries)[1..] == SwapAll(entries[1..]);
      assert PrintAsGit(entries[0]) == Print(Swapped(entries[0]));
    }
  }

  /** Git's own output is read with the two paths of every rename and copy exchanged. */
  lemma GitOutputIsReadSwapped(entries: seq<Entry>)
    requires forall i :: 0 <= i < |entries| ==> IsWellFormed(entries[i])
    ensures Parse(PrintAllAsGit(entries)) == SwapAll(entries)
  {
    GitPrintsSwapped(entries);
    ParseUndoesPrint(SwapAll(entries));
  }

  predicate MovesNothing(e: Entry) {
    e.origPath.Some? ==> e.origPath.value == e.path
  }

  /** So the entries come back exactly when no rename or copy leads to another path. */
  lemma GitOutputIsReadBackExactlyWhen(entries: seq<Entry>)
    requires forall i :: 0 <= i < |entries| ==> IsWellFormed(entries[i])
    ensures Parse(PrintAllAsGit(entries)) == entries <==> forall i :: 0 <= i < |entries| ==> MovesNothing(entries[i])
  {
    GitOutputIsReadSwapped(entries);
    forall i | 0 <= i < |entries| ensures SwapAll(entries)[i] == entries[i] <==> MovesNothing(entries[i]) {
    }
  }

  /** A rename of a.ts to b.ts is read as a rename of b.ts to a.ts. */
  lemma GitRenameIsReadBackwards()
    ensures var e := Entry("R ", "b.ts", Some("a.ts"));
      IsWellFormed(e) && Parse(PrintAllAsGit([e])) == [Entry("R ", "a.ts", Some("b.ts"))]
  {
    var e := Entry("R ", "b.ts", Some("a.ts"));
    GitOutputIsReadSwapped([e]);
    assert SwapAll([e]) == [Swapped(e)];
  }

  /** The path with every backslash a slash. */
  predicate IsSlashed(path: string, slashed: string) {
    |slashed| == |path| && forall i :: 0 <= i < |path| ==> slashed[i] == if path[i] == '\\' then '/' else path[i]
  }

  predicate IsMove(x: char, y: char) {
    x == 'R' || x == 'C' || y == 'R' || y == 'C'
  }

  lemma HeadReads(x: char, y: char, sep: char, path: string)
    requires HasNoNul([x, y, sep] + path)
    ensures var head := [x, y, sep] + path;
      head[..CODE_LENGTH] == [x, y] && head[CODE_LENGTH + 1..] == path && (IsRenameOrCopy(head[..CODE_LENGTH]) <==> IsMove(x, y))
    ensures IsSlashed(path, Normalize(path))
  {
    var head := [x, y, sep] + path;
    assert head[..CODE_LENGTH] == [x, y] && head[CODE_LENGTH + 1..] == path;
  }

  /** A plain part: two characters of code, one skipped, and the path. */
  lemma PlainPartReads(x: char, y: char, sep: char, path: string, rest: string) returns (slashed: string)
    requires HasNoNul([x, y, sep] + path) && !IsMove(x, y)
    ensures IsSlashed(path, slashed)
    ensures Parse([x, y, sep] + path + [NUL] + rest) == [Entry([x, y], slashed, None)] + Parse(rest)
  {
    var head := [x, y, sep] + path;
    HeadReads(x, y, sep, path);
    SplitAtNul(head, rest);
    ParseHead([head], Split(rest));
    slashed := Normalize(path);
    assert EntryAt([head]) == Entry([x, y], slashed, None);
  }

  /** A part with an R or a C in its code takes the next part along, as the path; its own is the original. */
  lemma MovePartsRead(x: char, y: char, sep: char, path: string, next: string, rest: string)
    returns (slashed: string, target: string)
    requires HasNoNul([x, y, sep] + path) && HasNoNul(next) && IsMove(x, y)
    ensures IsSlashed(path, slashed) && IsSlashed(next, target)
    ensures Parse([x, y, sep] + path + [NUL] + next + [NUL] + rest) == [Entry([x, y], target, Some(slashed))] + Parse(rest)
  {
    var head := [x, y, sep] + path;
    HeadReads(x, y, sep, path);
    SplitPair(head, next, rest);
    ParseHead([head, next], Split(rest));
    slashed, target := Normalize(path), Normalize(next);
    assert EntryAt([head, next]) == Entry([x, y], target, Some(slashed));
  }

  /** A part too short for a code and a separator is passed over. */
  lemma ShortPartIsSkipped(part: string, rest: string)
    requires HasNoNul(part) && |part| < 3
    ensures Parse(part + [NUL] + rest) == Parse(rest)
  {
    SplitAtNul(part, rest);
    assert ([part] + Split(rest))[1..] == Split(rest);
  }

  /** A part that nothing ends is read all the same; a rename or copy then has an empty path. */
  lemma LastPartReads(x: char, y: char, sep: char, path: string) returns (slashed: string)
    requires HasNoNul([x, y, sep] + path)
    ensures IsSlashed(path, slashed)
    ensures Parse([x, y, sep] + path) == [if IsMove(x, y) then Entry([x, y], "", Some(slashed)) else Entry([x, y], slashed, None)]
  {
    var head := [x, y, sep] + path;
    HeadReads(x, y, sep, path);
    WholeIsOnePart(head);
    slashed := Normalize(path);
    assert Rest([head], 1) == [] && Rest([head], 2) == [];
    assert ParseParts([]) == [] && Normalize("") == "";
    assert EntryAt([head]) == if IsMove(x, y) then Entry([x, y], "", Some(slashed)) else Entry([x, y], slashed, None);
    assert ParseParts([head]) == [EntryAt([head])] + ParseParts(Rest([head], if IsMove(x, y) then 2 else 1));
  }

  lemma {:induction false} WholeIsOnePart(text: string)
    requires HasNoNul(text)
    ensures Split(text) == [text]
  {
    if text == "" {
    } else {
      WholeIsOnePart(text[1..]);
      assert [text[0]] + text[1..] == text;
    }
  }
}
