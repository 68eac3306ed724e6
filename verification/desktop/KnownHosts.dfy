/** Listing, removing and appending lines of known_hosts. Entries carry the file line they came
    from; listing numbers them with one splitter (`lines`) and removal uses another
    (`split_inclusive`), so the two have to agree on every text.
 */
module KnownHosts {
  import opened Values

  // --- Characters and fields ---

  /** The Unicode White_Space property. */
  predicate IsWhitespace(c: char) {
    var n := c as int;
    9 <= n <= 13 || n == 0x20 || n == 0x85 || n == 0xA0 || n == 0x1680 || 0x2000 <= n <= 0x200A
    || n == 0x2028 || n == 0x2029 || n == 0x202F || n == 0x205F || n == 0x3000
  }

  function TrimStart(s: string): string {
    if s != "" && IsWhitespace(s[0]) then TrimStart(s[1..]) else s
  }

  function TrimEnd(s: string): string {
    if s != "" && IsWhitespace(s[|s| - 1]) then TrimEnd(s[..|s| - 1]) else s
  }

  function Trim(s: string): string {
    TrimStart(TrimEnd(s))
  }

  /** The whitespace-separated words of s, after the part `word` of one. */
  function Fields(s: string, word: string): seq<string>
    decreases |s|
  {
    var soFar := if word == "" then [] else [word];
    if s == "" then soFar
    else if IsWhitespace(s[0]) then soFar + Fields(s[1..], "")
    else Fields(s[1..], word + [s[0]])
  }

  datatype Parsed = Parsed(marker: Option<string>, hosts: string, keyType: string, keyBase64: string)

  function ParseFields(line: string): Option<Parsed> {
    var trimmed := Trim(line);
    if trimmed == "" || trimmed[0] == '#' then None
    else
      var fields := Fields(trimmed, "");
      var marked := fields != [] && fields[0] != "" && fields[0][0] == '@';
      var f := if marked then fields[1..] else fields;
      if |f| < 3 then None else Some(Parsed(if marked then Some(fields[0]) else None, f[0], f[1], f[2]))
  }

  // --- The two splitters ---

  /** `split_inclusive('\n')`: every piece keeps its line feed; the last may have none. */
  function Segments(text: string): seq<string> {
    if text == "" then []
    else if text[0] == '\n' then [[text[0]]] + Segments(text[1..])
    else
      var rest := Segments(text[1..]);
      if rest == [] then [[text[0]]] else [[text[0]] + rest[0]] + rest[1..]
  }

  /** What `lines` makes of a piece: without its line feed, and then without one carriage return. */
  function LineOf(segment: string): string {
    var n := |segment|;
    if n == 0 || segment[n - 1] != '\n' then segment
    else if n > 1 && segment[n - 2] == '\r' then segment[..n - 2]
    else segment[..n - 1]
  }

  function Lines(text: string): seq<string> {
    LinesOf(Segments(text))
  }

  function LinesOf(segments: seq<string>): seq<string> {
    seq(|segments|, i requires 0 <= i < |segments| => LineOf(segments[i]))
  }

  function Concat(pieces: seq<string>): string {
    if pieces == [] then "" else pieces[0] + Concat(pieces[1..])
  }

  /** A line feed ends a piece and occurs nowhere else in it; only the last piece can lack one. */
  ghost predicate Piece(s: string, last: bool) {
    && s != "" && (last || s[|s| - 1] == '\n')
    && (forall k :: 0 <= k < |s| - 1 ==> s[k] != '\n')
  }

  ghost predicate Split(segments: seq<string>) {
    forall i :: 0 <= i < |segments| ==> Piece(segments[i], i == |segments| - 1)
  }

  lemma LongerPiece(c: char, s: string, last: bool)
    requires c != '\n' && Piece(s, last)
    ensures Piece([c] + s, last)
  {
    assert forall k :: 1 <= k < |s| ==> ([c] + s)[k] == s[k - 1];
  }

  lemma {:induction false} SegmentsSplit(text: string)
    ensures Split(Segments(text)) && Concat(Segments(text)) == text
    ensures text == "" <==> Segments(text) == []
  {
    if text != "" {
      SegmentsSplit(text[1..]);
      var rest, all := Segments(text[1..]), Segments(text);
      if text[0] == '\n' || rest == [] {
        assert all == [[text[0]]] + rest && all[1..] == rest;
      } else {
        LongerPiece(text[0], rest[0], |rest| == 1);
        assert all[1..] == rest[1..] && Concat(rest) == rest[0] + Concat(rest[1..]);
        assert forall i :: 1 <= i < |all| ==> all[i] == rest[i];
      }
    }
  }

  /** Splitting is unique: pieces that look split are the pieces of their concatenation. */
  lemma {:induction false} SplitIsUnique(segments: seq<string>)
    requires Split(segments)
    ensures Segments(Concat(segments)) == segments
    decreases |Concat(segments)|
  {
    if segments != [] {
      var first, others := segments[0], segments[1..];
      assert forall i :: 0 <= i < |others| ==> others[i] == segments[i + 1];
      var text := Concat(segments);
      assert text == first + Concat(others);
      if |first| == 1 {
        assert text[1..] == Concat(others);
        SplitIsUnique(others);
        assert first == [text[0]];
        if others != [] {
          assert first[|first| - 1] == '\n';
        }
      } else {
        var shorter := [first[1..]] + others;
        assert text[1..] == first[1..] + Concat(others) == Concat(shorter);
        assert forall i :: 1 <= i < |shorter| ==> shorter[i] == segments[i];
        assert Split(shorter);
        SplitIsUnique(shorter);
        assert text[0] == first[0] != '\n';
        assert [first[0]] + first[1..] == first;
      }
    }
  }

  // --- Trimming does not see line ends ---

  lemma {:induction false} FieldsOfSegment(segment: string)
    requires segment != ""
    ensures ParseFields(segment) == ParseFields(LineOf(segment))
  {
    var n := |segment|;
    if segment[n - 1] == '\n' && n > 1 && segment[n - 2] == '\r' {
      assert segment[..n - 1][..n - 2] == segment[..n - 2];
      assert TrimEnd(segment) == TrimEnd(segment[..n - 1]) == TrimEnd(segment[..n - 2]);
    }
  }

  // --- Listing ---

  /** Digests of a line and of a key; what they compute does not matter here. */
  datatype Digests = Digests(line: string -> string, key: string -> Option<string>)

  datatype Details = Details(
    lineHash: string, hosts: string, keyType: string, fingerprint: Option<string>, hashed: bool, marker: Option<string>)

  datatype Entry = Entry(lineIndex: nat, details: Details)

  function TrimEol(s: string): string {
    if s != "" && (s[|s| - 1] == '\r' || s[|s| - 1] == '\n') then TrimEol(s[..|s| - 1]) else s
  }

  function DetailsOf(line: string, d: Digests): Option<Details> {
    var p := ParseFields(line);
    if p.None? then None else
      Some(Details(d.line(TrimEol(line)), p.value.hosts, p.value.keyType, d.key(p.value.keyBase64),
                   p.value.hosts != "" && p.value.hosts[0] == '|', p.value.marker))
  }

  function AllDetails(lines: seq<string>, d: Digests): seq<Option<Details>> {
    seq(|lines|, i requires 0 <= i < |lines| => DetailsOf(lines[i], d))
  }

  /** One entry for a line that has details, none for any other. */
  function Listed(found: Option<Details>, index: nat): seq<Entry> {
    if found.Some? then [Entry(index, found.value)] else []
  }

  /** The entries of all lines that have details, numbered by line. */
  function Collect(found: seq<Option<Details>>): seq<Entry> {
    if found == [] then [] else
      var n := |found| - 1;
      Collect(found[..n]) + Listed(found[n], n)
  }

  function ListEntries(text: string, d: Digests): seq<Entry> {
    Collect(AllDetails(Lines(text), d))
  }

  /** Every entry is about the line it names. */
  lemma {:induction false} CollectedIsItsLine(found: seq<Option<Details>>, e: Entry)
    requires e in Collect(found)
    ensures e.lineIndex < |found| && found[e.lineIndex] == Some(e.details)
  {
    var n := |found| - 1;
    if e !in Listed(found[n], n) {
      CollectedIsItsLine(found[..n], e);
    }
  }

  // --- Removing ---

  datatype RemoveError = Other | Conflict

  /** The pieces whose index is not removed, in order. */
  function Keep<T>(pieces: seq<T>, gone: set<nat>): seq<T> {
    if pieces == [] then [] else
      var n := |pieces| - 1;
      Keep(pieces[..n], gone) + (if n in gone then [] else [pieces[n]])
  }

  /** How many of the first n lines are removed. */
  function GoneBefore(gone: set<nat>, n: nat): (k: nat)
    ensures k <= n
  {
    if n == 0 then 0 else GoneBefore(gone, n - 1) + (if n - 1 in gone then 1 else 0)
  }

  function HostsAt(text: string, i: nat): Option<string> {
    var segments := Segments(text);
    if i >= |segments| then None else
      var p := ParseFields(segments[i]);
      if p.None? then None else Some(p.value.hosts)
  }

  function ToSet(indices: seq<nat>): set<nat> {
    set i | i in indices
  }

  predicate Repeats(indices: seq<nat>) {
    exists i, j :: 0 <= i < j < |indices| && indices[i] == indices[j]
  }

  /** Some line is gone or has other hosts than expected. */
  predicate Stale(text: string, indices: seq<nat>, expected: seq<string>)
    requires |indices| == |expected|
  {
    exists i :: 0 <= i < |indices| && HostsAt(text, indices[i]) != Some(expected[i])
  }

  /** What is left of a text: all its pieces but those removed, untouched and in order. */
  function Without(text: string, gone: set<nat>): string {
    Concat(Keep(Segments(text), gone))
  }

  method RemoveLines(text: string, indices: seq<nat>, expected: seq<string>) returns (r: Result<string, RemoveError>)
    ensures r ==
            if |indices| != |expected| || Repeats(indices) then Err(Other)
            else if Stale(text, indices, expected) then Err(Conflict)
            else Ok(Without(text, ToSet(indices)))
  {
    if |indices| != |expected| {
      return Err(Other);
    }
    var remove: set<nat> := {};
    for i := 0 to |indices|
      invariant remove == ToSet(indices[..i])
      invariant !Repeats(indices[..i])
    {
      assert indices[..i + 1] == indices[..i] + [indices[i]];
      if indices[i] in remove {
        var k :| 0 <= k < i && indices[k] == indices[i];
        return Err(Other);
      }
      remove := remove + {indices[i]};
    }
    assert indices[..|indices|] == indices;
    var segments := Segments(text);
    for i := 0 to |indices|
      invariant forall k :: 0 <= k < i ==> HostsAt(text, indices[k]) == Some(expected[k])
    {
      if indices[i] >= |segments| {
        assert HostsAt(text, indices[i]) != Some(expected[i]);
        return Err(Conflict);
      }
      var p := ParseFields(segments[indices[i]]);
      if p.None? || p.value.hosts != expected[i] {
        assert HostsAt(text, indices[i]) != Some(expected[i]);
        return Err(Conflict);
      }
    }
    var kept: seq<string> := [];
    for i := 0 to |segments|
      invariant kept == Keep(segments[..i], remove)
    {
      assert segments[..i + 1][..i] == segments[..i];
      if i !in remove {
        kept := kept + [segments[i]];
      }
    }
    assert segments[..|segments|] == segments;
    r := Ok(Concat(kept));
  }

  lemma {:induction false} KeepSplit(segments: seq<string>, gone: set<nat>)
    requires Split(segments)
    ensures Split(Keep(segments, gone))
    ensures forall s :: s in Keep(segments, gone) ==> s in segments
  {
    if segments != [] {
      var n := |segments| - 1;
      var most, kept := segments[..n], Keep(segments[..n], gone);
      KeepSplit(most, gone);
      forall i | 0 <= i < |kept| ensures kept[i] != "" && kept[i][|kept[i]| - 1] == '\n' {
        assert kept[i] in most;
      }
    }
  }

  lemma {:induction false} KeepDetails(segments: seq<string>, gone: set<nat>, d: Digests)
    ensures AllDetails(LinesOf(Keep(segments, gone)), d) == Keep(AllDetails(LinesOf(segments), d), gone)
  {
    if segments != [] {
      var n := |segments| - 1;
      KeepDetails(segments[..n], gone, d);
      assert AllDetails(LinesOf(segments), d)[..n] == AllDetails(LinesOf(segments[..n]), d);
    }
  }

  /** The entries that are not removed, each numbered by what is left before it. */
  function Renumbered(entries: seq<Entry>, gone: set<nat>): seq<Entry> {
    if entries == [] then [] else
      var e := entries[|entries| - 1];
      Renumbered(entries[..|entries| - 1], gone)
      + (if e.lineIndex in gone then [] else [e.(lineIndex := e.lineIndex - GoneBefore(gone, e.lineIndex))])
  }

  lemma {:induction false} KeepCount<T>(pieces: seq<T>, gone: set<nat>)
    ensures |Keep(pieces, gone)| == |pieces| - GoneBefore(gone, |pieces|)
  {
    if pieces != [] {
      KeepCount(pieces[..|pieces| - 1], gone);
    }
  }

  /** Reading one more line, and renumbering what it lists. */
  lemma {:induction false} CollectAppend(found: seq<Option<Details>>, last: Option<Details>)
    ensures Collect(found + [last]) == Collect(found) + Listed(last, |found|)
  {
    assert (found + [last])[..|found|] == found;
  }

  lemma CollectAppendIf(found: seq<Option<Details>>, last: Option<Details>, kept: bool)
    ensures Collect(found + (if kept then [last] else [])) ==
            Collect(found) + (if kept then Listed(last, |found|) else [])
  {
    if kept {
      CollectAppend(found, last);
    } else {
      assert found + [] == found;
    }
  }

  lemma {:induction false} RenumberedAppend(entries: seq<Entry>, last: Option<Details>, n: nat, gone: set<nat>)
    ensures Renumbered(entries + Listed(last, n), gone) ==
            Renumbered(entries, gone) + (if n in gone then [] else Listed(last, n - GoneBefore(gone, n)))
  {
    var listed := Listed(last, n);
    if listed == [] {
      assert entries + listed == entries;
    } else {
      assert (entries + listed)[..|entries|] == entries;
    }
  }

  lemma KeepOneMore<T>(pieces: seq<T>, last: T, gone: set<nat>)
    ensures Keep(pieces + [last], gone) == Keep(pieces, gone) + (if |pieces| !in gone then [last] else [])
  {
    assert (pieces + [last])[..|pieces|] == pieces;
  }

  lemma {:induction false} KeepEntries(found: seq<Option<Details>>, gone: set<nat>)
    ensures Collect(Keep(found, gone)) == Renumbered(Collect(found), gone)
  {
    if found != [] {
      var n := |found| - 1;
      var most, last := found[..n], found[n];
      KeepEntries(most, gone);
      assert found == most + [last];
      KeepCount(most, gone);
      CollectAppend(most, last);
      RenumberedAppend(Collect(most), last, n, gone);
      KeepOneMore(most, last, gone);
      CollectAppendIf(Keep(most, gone), last, n !in gone);
    }
  }

  /** How many there are, said with a set. */
  lemma {:induction false} GoneBeforeIs(gone: set<nat>, n: nat)
    ensures GoneBefore(gone, n) == |set i: nat | i in gone && i < n|
  {
    if n > 0 {
      GoneBeforeIs(gone, n - 1);
      var before, now := set i: nat | i in gone && i < n - 1, set i: nat | i in gone && i < n;
      assert now == before + (if n - 1 in gone then {n - 1} else {});
    } else {
      assert (set i: nat | i in gone && i < n) == {};
    }
  }

  /** Every piece that is not removed is kept as it is, as many places further up as pieces before it
      are removed. */
  lemma {:induction false} KeptIsThere<T>(pieces: seq<T>, gone: set<nat>, i: nat)
    requires i < |pieces| && i !in gone
    ensures var k := i - GoneBefore(gone, i); k < |Keep(pieces, gone)| && Keep(pieces, gone)[k] == pieces[i]
  {
    var n := |pieces| - 1;
    KeepCount(pieces[..n], gone);
    if i < n {
      KeptIsThere(pieces[..n], gone, i);
    }
  }

  /** x is an old entry that stays, with its details and its index lowered. */
  ghost predicate Stayed(entries: seq<Entry>, gone: set<nat>, x: Entry) {
    exists e :: e in entries && StaysAs(e, gone, x)
  }

  predicate StaysAs(e: Entry, gone: set<nat>, x: Entry) {
    e.lineIndex !in gone && x == Entry(e.lineIndex - GoneBefore(gone, e.lineIndex), e.details)
  }

  lemma StayedOneMore(entries: seq<Entry>, last: Entry, gone: set<nat>, x: Entry)
    ensures Stayed(entries + [last], gone, x) <==> Stayed(entries, gone, x) || StaysAs(last, gone, x)
  {
    var all := entries + [last];
    assert forall e :: e in all <==> e in entries || e == last;
  }

  lemma RenumberedOneMore(entries: seq<Entry>, last: Entry, gone: set<nat>, x: Entry)
    ensures x in Renumbered(entries + [last], gone) <==> x in Renumbered(entries, gone) || StaysAs(last, gone, x)
  {
    assert (entries + [last])[..|entries|] == entries;
  }

  /** The new list has exactly the old entries that stay. */
  lemma {:induction false} RenumberedIff(entries: seq<Entry>, gone: set<nat>, x: Entry)
    ensures x in Renumbered(entries, gone) <==> Stayed(entries, gone, x)
  {
    if entries != [] {
      var most, last := entries[..|entries| - 1], entries[|entries| - 1];
      assert entries == most + [last];
      RenumberedIff(most, gone, x);
      StayedOneMore(most, last, gone, x);
      RenumberedOneMore(most, last, gone, x);
    }
  }

  /** Whatever is removed, the kept lines are byte-identical and in order, and listing again gives
      the remaining entries, each index lowered by the number of removed lines before it. */
  lemma {:induction false} RemoveThenList(text: string, gone: set<nat>, d: Digests)
    ensures Segments(Without(text, gone)) == Keep(Segments(text), gone)
    ensures ListEntries(Without(text, gone), d) == Renumbered(ListEntries(text, d), gone)
  {
    SegmentsSplit(text);
    KeepSplit(Segments(text), gone);
    SplitIsUnique(Keep(Segments(text), gone));
    KeepDetails(Segments(text), gone, d);
    KeepEntries(AllDetails(Lines(text), d), gone);
  }

  /** The displayed line of each index has the digest it was listed with. */
  predicate HashesMatch(text: string, indices: seq<nat>, hashes: seq<string>, d: Digests) {
    && |hashes| == |indices|
    && forall i :: 0 <= i < |indices| ==>
         indices[i] < |Lines(text)| && d.line(TrimEol(Lines(text)[indices[i]])) == hashes[i]
  }

  /** The removal as the app performs it, on the text read from the file. */
  method RemoveFromText(
      text: string, indices: seq<nat>, expected: seq<string>, hashes: Option<seq<string>>, d: Digests)
    returns (r: Result<string, RemoveError>)
    ensures r ==
            if |indices| != |expected| || Repeats(indices) then Err(Other)
            else if Stale(text, indices, expected) then Err(Conflict)
            else if hashes.Some? && !HashesMatch(text, indices, hashes.value, d) then Err(Conflict)
            else Ok(Without(text, ToSet(indices)))
  {
    r := RemoveLines(text, indices, expected);
    if r.Ok? && hashes.Some? && !HashesMatch(text, indices, hashes.value, d) {
      r := Err(Conflict);
    }
  }

  function IndicesOf(chosen: seq<Entry>): seq<nat> {
    seq(|chosen|, i requires 0 <= i < |chosen| => chosen[i].lineIndex)
  }

  function HostsOf(chosen: seq<Entry>): seq<string> {
    seq(|chosen|, i requires 0 <= i < |chosen| => chosen[i].details.hosts)
  }

  function HashesOf(chosen: seq<Entry>): seq<string> {
    seq(|chosen|, i requires 0 <= i < |chosen| => chosen[i].details.lineHash)
  }

  lemma ListedIsThere(text: string, e: Entry, d: Digests)
    requires e in ListEntries(text, d)
    ensures HostsAt(text, e.lineIndex) == Some(e.details.hosts)
    ensures e.lineIndex < |Lines(text)| && DetailsOf(Lines(text)[e.lineIndex], d) == Some(e.details)
  {
    CollectedIsItsLine(AllDetails(Lines(text), d), e);
    SegmentsSplit(text);
    FieldsOfSegment(Segments(text)[e.lineIndex]);
  }

  /** Any selection of different listed entries, in any order, passes every check of a removal from
      the same text. */
  lemma {:induction false} ListedCanBeRemoved(text: string, chosen: seq<Entry>, d: Digests)
    requires forall e :: e in chosen ==> e in ListEntries(text, d)
    requires forall i, j :: 0 <= i < j < |chosen| ==> chosen[i] != chosen[j]
    ensures !Repeats(IndicesOf(chosen)) && !Stale(text, IndicesOf(chosen), HostsOf(chosen))
    ensures HashesMatch(text, IndicesOf(chosen), HashesOf(chosen), d)
  {
    forall i | 0 <= i < |chosen|
      ensures HostsAt(text, chosen[i].lineIndex) == Some(chosen[i].details.hosts)
      ensures chosen[i].lineIndex < |Lines(text)|
      ensures DetailsOf(Lines(text)[chosen[i].lineIndex], d) == Some(chosen[i].details)
    {
      ListedIsThere(text, chosen[i], d);
    }
  }

  /** List, choose, remove, list again: on unchanged text the removal always succeeds, and the new
      list is the old one without the chosen entries, each index lowered by the number of removed
      lines before it. */
  method RemoveListed(text: string, chosen: seq<Entry>, d: Digests) returns (r: Result<string, RemoveError>)
    requires forall e :: e in chosen ==> e in ListEntries(text, d)
    requires forall i, j :: 0 <= i < j < |chosen| ==> chosen[i] != chosen[j]
    ensures r.Ok? && Segments(r.value) == Keep(Segments(text), ToSet(IndicesOf(chosen)))
    ensures ListEntries(r.value, d) == Renumbered(ListEntries(text, d), ToSet(IndicesOf(chosen)))
  {
    ListedCanBeRemoved(text, chosen, d);
    RemoveThenList(text, ToSet(IndicesOf(chosen)), d);
    r := RemoveFromText(text, IndicesOf(chosen), HostsOf(chosen), Some(HashesOf(chosen)), d);
  }

  // --- Appending ---

  lemma {:induction false} LineFeedChangesNothing(s: string, d: Digests)
    requires s != "" && s[|s| - 1] != '\n'
    ensures DetailsOf(LineOf(s + "\n"), d) == DetailsOf(s, d)
  {
    var t := s + "\n";
    FieldsOfSegment(t);
    assert t[..|s|] == s;
    assert TrimEnd(t) == TrimEnd(s);
    if s[|s| - 1] == '\r' {
      assert LineOf(t) == s[..|s| - 1];
    }
  }

  lemma {:induction false} ConcatAppend(pieces: seq<string>, last: string)
    ensures Concat(pieces + [last]) == Concat(pieces) + last
  {
    if pieces == [] {
      assert pieces + [last] == [last];
    } else {
      ConcatAppend(pieces[1..], last);
      assert (pieces + [last])[1..] == pieces[1..] + [last];
    }
  }

  lemma DetailsAppend(segments: seq<string>, s: string, d: Digests)
    ensures AllDetails(LinesOf(segments + [s]), d) == AllDetails(LinesOf(segments), d) + [DetailsOf(LineOf(s), d)]
  {
  }

  lemma {:induction false} LastSegment(text: string)
    requires text != "" && text[|text| - 1] != '\n'
    ensures var s := Segments(text);
            && s != [] && Piece(s[|s| - 1], true) && s[|s| - 1][|s[|s| - 1]| - 1] != '\n'
            && Concat(s[..|s| - 1]) + s[|s| - 1] == text
  {
    SegmentsSplit(text);
    var segments := Segments(text);
    var n := |segments| - 1;
    assert segments == segments[..n] + [segments[n]] && Piece(segments[n], true);
    ConcatAppend(segments[..n], segments[n]);
    assert segments[n][|segments[n]| - 1] == text[|text| - 1];
  }

  lemma ClosePiece(segments: seq<string>, last: string)
    requires Split(segments + [last]) && last != "" && last[|last| - 1] != '\n'
    ensures Split(segments + [last + "\n"])
  {
    var before, closed := segments + [last], segments + [last + "\n"];
    assert Piece(before[|segments|], true);
    assert forall i :: 0 <= i < |segments| ==> closed[i] == before[i];
  }

  lemma {:induction false} ClosedSegments(text: string)
    requires text != "" && text[|text| - 1] != '\n'
    ensures var s := Segments(text);
            && s != [] && Piece(s[|s| - 1], true) && s[|s| - 1][|s[|s| - 1]| - 1] != '\n'
            && Segments(text + "\n") == s[..|s| - 1] + [s[|s| - 1] + "\n"]
  {
    LastSegment(text);
    SegmentsSplit(text);
    var segments := Segments(text);
    var n := |segments| - 1;
    var most, last := segments[..n], segments[n];
    assert segments == most + [last];
    ClosePiece(most, last);
    ConcatAppend(most, last + "\n");
    assert Concat(most) + (last + "\n") == text + "\n";
    SplitIsUnique(most + [last + "\n"]);
  }

  /** Giving the last line of a text a line feed it lacked keeps every entry. */
  lemma {:induction false} CloseLastLine(text: string, d: Digests)
    requires text != "" && text[|text| - 1] != '\n'
    ensures |Lines(text + "\n")| == |Lines(text)|
    ensures ListEntries(text + "\n", d) == ListEntries(text, d)
  {
    ClosedSegments(text);
    var segments := Segments(text);
    var n := |segments| - 1;
    var most, last := segments[..n], segments[n];
    assert segments == most + [last];
    LineFeedChangesNothing(last, d);
    DetailsAppend(most, last, d);
    DetailsAppend(most, last + "\n", d);
  }

  lemma {:induction false} ConcatBoth(a: seq<string>, b: seq<string>)
    ensures Concat(a + b) == Concat(a) + Concat(b)
  {
    if a == [] {
      assert a + b == b;
    } else {
      ConcatBoth(a[1..], b);
      assert (a + b)[1..] == a[1..] + b;
      assert a[0] + (Concat(a[1..]) + Concat(b)) == a[0] + Concat(a[1..]) + Concat(b);
    }
  }

  /** Every piece of a text whose last line is closed ends with a line feed. */
  lemma ClosedPieces(text: string)
    requires text == "" || text[|text| - 1] == '\n'
    ensures forall i :: 0 <= i < |Segments(text)| ==> Piece(Segments(text)[i], false)
  {
    SegmentsSplit(text);
    if text != "" {
      var segments := Segments(text);
      var n := |segments| - 1;
      assert segments == segments[..n] + [segments[n]] && Piece(segments[n], true);
      ConcatAppend(segments[..n], segments[n]);
      assert segments[n][|segments[n]| - 1] == text[|text| - 1];
    }
  }

  lemma {:induction false} SegmentsOfBoth(text: string, more: string)
    requires text == "" || text[|text| - 1] == '\n'
    ensures Segments(text + more) == Segments(text) + Segments(more)
  {
    var a, b := Segments(text), Segments(more);
    SegmentsSplit(text);
    SegmentsSplit(more);
    ClosedPieces(text);
    ConcatBoth(a, b);
    forall i | 0 <= i < |a + b| ensures Piece((a + b)[i], i == |a + b| - 1) {
      if i < |a| {
        assert Piece(a[i], false);
      } else {
        assert Piece(b[i - |a|], i - |a| == |b| - 1);
      }
    }
    SplitIsUnique(a + b);
  }

  /** The same entries, further down. */
  function Shifted(entries: seq<Entry>, lines: nat): seq<Entry> {
    seq(|entries|, i requires 0 <= i < |entries| => Entry(entries[i].lineIndex + lines, entries[i].details))
  }

  lemma ShiftedListed(entries: seq<Entry>, last: Option<Details>, n: nat, lines: nat)
    ensures Shifted(entries + Listed(last, n), lines) == Shifted(entries, lines) + Listed(last, lines + n)
  {
  }

  lemma ShiftedOne(found: Option<Details>, lines: nat)
    ensures Shifted(Listed(found, 0), lines) == Listed(found, lines)
  {
  }

  lemma RegroupEntries(a: seq<Entry>, b: seq<Entry>, c: seq<Entry>)
    ensures a + b + c == a + (b + c)
  {
  }

  lemma RegroupFound(a: seq<Option<Details>>, b: seq<Option<Details>>, c: seq<Option<Details>>)
    ensures a + b + c == a + (b + c)
  {
  }

  lemma {:induction false} CollectBothOneMore(a: seq<Option<Details>>, b: seq<Option<Details>>, last: Option<Details>)
    requires Collect(a + b) == Collect(a) + Shifted(Collect(b), |a|)
    ensures Collect(a + b + [last]) == Collect(a) + Shifted(Collect(b + [last]), |a|)
  {
    CollectAppend(a + b, last);
    CollectAppend(b, last);
    ShiftedListed(Collect(b), last, |b|, |a|);
    RegroupEntries(Collect(a), Shifted(Collect(b), |a|), Listed(last, |a| + |b|));
  }

  lemma {:induction false} CollectBoth(a: seq<Option<Details>>, b: seq<Option<Details>>)
    ensures Collect(a + b) == Collect(a) + Shifted(Collect(b), |a|)
  {
    if b == [] {
      assert a + b == a;
    } else {
      var n := |b| - 1;
      var most, last := b[..n], b[n];
      CollectBoth(a, most);
      CollectBothOneMore(a, most, last);
      assert b == most + [last];
      RegroupFound(a, most, [last]);
    }
  }

  lemma DetailsOfBoth(a: seq<string>, b: seq<string>, d: Digests)
    ensures AllDetails(LinesOf(a + b), d) == AllDetails(LinesOf(a), d) + AllDetails(LinesOf(b), d)
  {
  }

  /** What is added to a text whose last line is closed is listed after it. */
  lemma {:induction false} AddText(text: string, more: string, d: Digests)
    requires text == "" || text[|text| - 1] == '\n'
    ensures ListEntries(text + more, d) == ListEntries(text, d) + Shifted(ListEntries(more, d), |Lines(text)|)
  {
    SegmentsOfBoth(text, more);
    CollectBoth(AllDetails(Lines(text), d), AllDetails(Lines(more), d));
    DetailsOfBoth(Segments(text), Segments(more), d);
  }

  lemma {:induction false} OneLine(line: string, d: Digests)
    requires '\n' !in line
    ensures Lines(line + "\n") == [LineOf(line + "\n")]
    ensures ListEntries(line + "\n", d) == Listed(DetailsOf(LineOf(line + "\n"), d), 0)
  {
    var segments := [line + "\n"];
    assert Piece(segments[0], true);
    assert Concat(segments) == line + "\n" by {
      assert segments[1..] == [];
    }
    SplitIsUnique(segments);
    CollectAppend([], DetailsOf(LineOf(line + "\n"), d));
    assert AllDetails(Lines(line + "\n"), d) == [] + [DetailsOf(LineOf(line + "\n"), d)];
  }

  function Closed(text: string): string {
    if text != "" && text[|text| - 1] != '\n' then text + "\n" else text
  }

  lemma ClosedIsSame(text: string, d: Digests)
    ensures ListEntries(Closed(text), d) == ListEntries(text, d) && |Lines(Closed(text))| == |Lines(text)|
  {
    if text != "" && text[|text| - 1] != '\n' {
      CloseLastLine(text, d);
    }
  }

  lemma AppendedIsListed(text: string, line: string, d: Digests)
    ensures ListEntries(Closed(text) + (line + "\n"), d) ==
            ListEntries(text, d) + Shifted(ListEntries(line + "\n", d), |Lines(text)|)
  {
    ClosedIsSame(text, d);
    AddText(Closed(text), line + "\n", d);
  }

  lemma OneLineShifted(line: string, lines: nat, d: Digests)
    requires '\n' !in line
    ensures Shifted(ListEntries(TrimEnd(line) + "\n", d), lines) == Listed(DetailsOf(TrimEnd(line), d), lines)
  {
    var trimmed := TrimEnd(line);
    TrimmedLine(line);
    OneLine(trimmed, d);
    assert ListEntries(trimmed + "\n", d) == Listed(DetailsOf(trimmed, d), 0);
    ShiftedOne(DetailsOf(trimmed, d), lines);
  }

  /** Appending keeps every listed entry as it was and lists those of what was appended after them,
      from the next line on; for a single line that is one entry if the line parses. */
  method AppendLine(text: string, line: string, ghost d: Digests) returns (r: string)
    ensures text <= r
    ensures ListEntries(r, d) == ListEntries(text, d) + Shifted(ListEntries(TrimEnd(line) + "\n", d), |Lines(text)|)
    ensures '\n' !in line ==>
              Shifted(ListEntries(TrimEnd(line) + "\n", d), |Lines(text)|) ==
              Listed(DetailsOf(TrimEnd(line), d), |Lines(text)|)
  {
    r := text;
    if r != "" && r[|r| - 1] != '\n' {
      r := r + "\n";
    }
    AppendedIsListed(text, TrimEnd(line), d);
    assert r + TrimEnd(line) + "\n" == Closed(text) + (TrimEnd(line) + "\n");
    r := r + TrimEnd(line) + "\n";
    if '\n' !in line {
      OneLineShifted(line, |Lines(text)|, d);
    }
  }

  /** A trimmed line with a line feed added is read as the trimmed line. */
  lemma {:induction false} TrimmedLine(line: string)
    ensures LineOf(TrimEnd(line) + "\n") == TrimEnd(line)
    ensures '\n' !in line ==> '\n' !in TrimEnd(line)
  {
    TrimEndIsPrefix(line);
    var s := TrimEnd(line) + "\n";
    assert s[..|s| - 1] == TrimEnd(line);
  }

  lemma {:induction false} TrimEndIsPrefix(s: string)
    ensures TrimEnd(s) <= s
    ensures TrimEnd(s) != "" ==> !IsWhitespace(TrimEnd(s)[|TrimEnd(s)| - 1])
  {
    if s != "" && IsWhitespace(s[|s| - 1]) {
      TrimEndIsPrefix(s[..|s| - 1]);
    }
  }

  // --- What the fields of a line are ---

  predicate IsWord(w: string) {
    w != "" && forall i :: 0 <= i < |w| ==> !IsWhitespace(w[i])
  }

  ghost predicate AreWords(words: seq<string>) {
    words != [] && forall i :: 0 <= i < |words| ==> IsWord(words[i])
  }

  /** Words with a blank between each two. */
  function Spaced(words: seq<string>): string {
    if words == [] then "" else if |words| == 1 then words[0] else words[0] + (" " + Spaced(words[1..]))
  }

  lemma {:induction false} FieldsAfterWord(w: string, rest: string, word: string)
    requires forall i :: 0 <= i < |w| ==> !IsWhitespace(w[i])
    ensures Fields(w + rest, word) == Fields(rest, word + w)
    decreases |w|
  {
    if w == "" {
      assert w + rest == rest && word + w == word;
    } else {
      assert (w + rest)[0] == w[0] && (w + rest)[1..] == w[1..] + rest;
      FieldsAfterWord(w[1..], rest, word + [w[0]]);
      assert word + [w[0]] + w[1..] == word + w;
    }
  }

  lemma {:induction false} FieldsOfSpaced(words: seq<string>)
    requires AreWords(words)
    ensures Fields(Spaced(words), "") == words
  {
    var first := words[0];
    assert "" + first == first;
    if |words| == 1 {
      FieldsAfterWord(first, "", "");
      assert first + "" == first && words == [first];
    } else {
      var rest := Spaced(words[1..]);
      FieldsAfterWord(first, " " + rest, "");
      FieldsOfSpaced(words[1..]);
      assert (" " + rest)[0] == ' ' && (" " + rest)[1..] == rest;
      assert [first] + words[1..] == words;
    }
  }

  lemma {:induction false} SpacedEnds(words: seq<string>)
    requires AreWords(words)
    ensures var s := Spaced(words); s != "" && s[0] == words[0][0] && !IsWhitespace(s[0]) && !IsWhitespace(s[|s| - 1])
  {
    assert IsWord(words[0]);
    if |words| > 1 {
      SpacedEnds(words[1..]);
    }
  }

  /** Which field is which. In a line of words with single blanks between them: a comment gives
      nothing; otherwise the hosts, the key type and the key are the first three words, or the three
      after a first word that begins with @, which is the marker; with fewer words there is nothing. */
  lemma FieldsAre(words: seq<string>)
    requires AreWords(words)
    ensures var p, c := ParseFields(Spaced(words)), words[0][0];
            && (c == '#' ==> p.None?)
            && (c == '@' && |words| >= 4 ==> p == Some(Parsed(Some(words[0]), words[1], words[2], words[3])))
            && (c == '@' && |words| < 4 ==> p.None?)
            && (c != '#' && c != '@' && |words| >= 3 ==> p == Some(Parsed(None, words[0], words[1], words[2])))
            && (c != '#' && c != '@' && |words| < 3 ==> p.None?)
  {
    SpacedEnds(words);
    FieldsOfSpaced(words);
    assert IsWord(words[0]);
  }

  lemma {:induction false} BlankIsTrimmed(line: string)
    requires forall i :: 0 <= i < |line| ==> IsWhitespace(line[i])
    ensures TrimEnd(line) == ""
  {
    if line != "" {
      BlankIsTrimmed(line[..|line| - 1]);
    }
  }

  /** A blank line gives nothing. */
  lemma BlankHasNoFields(line: string)
    requires forall i :: 0 <= i < |line| ==> IsWhitespace(line[i])
    ensures ParseFields(line).None?
  {
    BlankIsTrimmed(line);
  }

  /** What an entry says of a line without a marker: its own digest, the hosts, the key type, the
      digest of the key, and whether the hosts are hashed. */
  lemma EntrySays(words: seq<string>, d: Digests)
    requires AreWords(words) && |words| >= 3 && words[0][0] != '#' && words[0][0] != '@'
    ensures DetailsOf(Spaced(words), d) ==
            Some(Details(d.line(Spaced(words)), words[0], words[1], d.key(words[2]), words[0][0] == '|', None))
  {
    FieldsAre(words);
    SpacedEnds(words);
    assert IsWord(words[0]);
  }

  /** And of one with a marker. */
  lemma MarkedEntrySays(words: seq<string>, d: Digests)
    requires AreWords(words) && |words| >= 4 && words[0][0] == '@'
    ensures DetailsOf(Spaced(words), d) ==
            Some(Details(d.line(Spaced(words)), words[1], words[2], d.key(words[3]), words[1][0] == '|', Some(words[0])))
  {
    FieldsAre(words);
    SpacedEnds(words);
    assert IsWord(words[1]);
  }

  predicate IsEol(c: char) {
    c == '\r' || c == '\n'
  }

  /** The digest of a line is that of the line without the line ends at its end, and without nothing
      else. */
  lemma {:induction false} TrimEolIs(s: string)
    ensures TrimEol(s) <= s && (TrimEol(s) != "" ==> !IsEol(TrimEol(s)[|TrimEol(s)| - 1]))
    ensures forall i :: |TrimEol(s)| <= i < |s| ==> IsEol(s[i])
  {
    if s != "" && IsEol(s[|s| - 1]) {
      TrimEolIs(s[..|s| - 1]);
    }
  }
}
