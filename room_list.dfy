/** The text `_list_rooms` returns: one line per joined room, `id (name | alias)`
    with only the known parts, under a header that counts the lines. */
module RoomList {

  import opened Wrappers
  import opened Text

  /** What asking for a room's canonical alias gave: an alias or none, or an exception. */
  datatype AliasLookup = AliasKnown(alias: Option<string>) | AliasFailed

  /** What the homeserver said about one joined room. `name` is `None` when the
      name state was missing or could not be read. */
  datatype RoomInfo = RoomInfo(id: string, name: Option<string>, alias: AliasLookup)

  /** Python truthiness of an optional string: present and non-empty. */
  predicate Known(s: Option<string>)
  {
    s.Some? && s.value != ""
  }

  function DisplayParts(info: RoomInfo): seq<string>
  {
    (if Known(info.name) then [info.name.value] else []) +
    (if info.alias.AliasKnown? && Known(info.alias.alias) then [info.alias.alias.value] else [])
  }

  function RoomLine(info: RoomInfo): (line: string)
    ensures info.id <= line
    ensures line == info.id || (|line| > |info.id| + 2 && line[|line| - 1] == ')')
  {
    var parts := DisplayParts(info);
    if info.alias.AliasFailed? || parts == [] then info.id
    else info.id + " (" + JoinWith(" | ", parts) + ")"
  }

  /** The four shapes a line can take: name before alias, only the known parts,
      and the bare id when neither is known or the alias lookup failed. */
  lemma RoomLineShapes(info: RoomInfo)
    ensures var hasName := Known(info.name);
      var hasAlias := info.alias.AliasKnown? && Known(info.alias.alias);
      var line := RoomLine(info);
      && (info.alias.AliasFailed? ==> line == info.id)
      && (!hasName && !hasAlias ==> line == info.id)
      && (info.alias.AliasKnown? && hasName && hasAlias ==>
            line == info.id + " (" + info.name.value + " | " + info.alias.alias.value + ")")
      && (info.alias.AliasKnown? && hasName && !hasAlias ==> line == info.id + " (" + info.name.value + ")")
      && (!hasName && hasAlias ==> line == info.id + " (" + info.alias.alias.value + ")")
  {
    var parts := DisplayParts(info);
    if |parts| == 2 {
      assert JoinWith(" | ", parts) == parts[0] + " | " + parts[1] by {
        assert parts[1..] == [parts[1]];
      }
    }
  }

  function RoomLines(rooms: seq<RoomInfo>): (lines: seq<string>)
  {
    seq(|rooms|, i requires 0 <= i < |rooms| => RoomLine(rooms[i]))
  }

  function Header(count: nat): string
  {
    "Joined rooms (" + Decimal(count) + "):\n"
  }

  /** Builds the listing room by room, as `_list_rooms` appends to `room_list`. */
  method ListRooms(rooms: seq<RoomInfo>) returns (text: string)
    ensures text == Header(|rooms|) + JoinWith("\n", RoomLines(rooms))
  {
    var lines: seq<string> := [];
    var i := 0;
    while i < |rooms|
      invariant 0 <= i <= |rooms|
      invariant |lines| == i
      invariant forall j :: 0 <= j < i ==> lines[j] == RoomLine(rooms[j])
    {
      lines := lines + [RoomLine(rooms[i])];
      i := i + 1;
    }
    assert lines == RoomLines(rooms);
    text := Header(|lines|) + JoinWith("\n", lines);
  }

  /** When no room id, name or alias contains a line break, the listing below the
      header has exactly as many lines as the header's count says. */
  lemma ListingLineCount(rooms: seq<RoomInfo>)
    requires |rooms| > 0
    requires forall i :: 0 <= i < |rooms| ==> NoBreaks(rooms[i])
    ensures Occurrences(JoinWith("\n", RoomLines(rooms)), '\n') + 1 == |rooms|
  {
    var lines := RoomLines(rooms);
    forall i | 0 <= i < |lines| ensures Occurrences(lines[i], '\n') == 0 {
      LineHasNoBreak(rooms[i]);
    }
    JoinWithSeparators('\n', lines);
  }

  predicate NoBreaks(info: RoomInfo)
  {
    && Occurrences(info.id, '\n') == 0
    && (info.name.Some? ==> Occurrences(info.name.value, '\n') == 0)
    && (info.alias.AliasKnown? && info.alias.alias.Some? ==> Occurrences(info.alias.alias.value, '\n') == 0)
  }

  lemma {:induction false} NoBreakLiteral(s: string)
    requires forall i :: 0 <= i < |s| ==> s[i] != '\n'
    ensures Occurrences(s, '\n') == 0
  {
    if s != [] {
      NoBreakLiteral(s[1..]);
    }
  }

  lemma LineHasNoBreak(info: RoomInfo)
    requires NoBreaks(info)
    ensures Occurrences(RoomLine(info), '\n') == 0
  {
    var parts := DisplayParts(info);
    if !(info.alias.AliasFailed? || parts == []) {
      assert forall i :: 0 <= i < |parts| ==> Occurrences(parts[i], '\n') == 0;
      assert |parts| <= 2;
      var joined := JoinWith(" | ", parts);
      assert Occurrences(joined, '\n') == 0 by {
        if |parts| == 1 {
          assert joined == parts[0];
        } else {
          assert parts[1..] == [parts[1]];
          assert JoinWith(" | ", parts[1..]) == parts[1];
          assert joined == parts[0] + " | " + parts[1];
          assert Occurrences(" | ", '\n') == 0 by { NoBreakLiteral(" | "); }
          OccurrencesAppend(parts[0], " | ", '\n');
          OccurrencesAppend(parts[0] + " | ", parts[1], '\n');
        }
      }
      NoBreakLiteral(" (");
      NoBreakLiteral(")");
      OccurrencesAppend(info.id, " (", '\n');
      OccurrencesAppend(info.id + " (", joined, '\n');
      OccurrencesAppend(info.id + " (" + joined, ")", '\n');
    }
  }
}
