/** Saving, loading and importing games (ui/utils/SaveLoadManager.kt). The
    `saved_games` directory is a map from file name to file content; the
    save index lives in the same directory as `metadata.json`. The parts
    done by libraries whose code is not part of this model -- JSON encoding
    and decoding, and turning XML events into characters and back -- are
    the function fields of a `Platform`. The clock reading that stamps an
    index entry and the outcome of each file write are parameters. */
module SaveLoad {
  import opened Options
  import opened Text
  import opened States
  import opened SaveFormats
  import opened TxtCodec
  import opened XmlCodec

  /** The library functions the manager calls: kotlinx JSON for a state and
      for the index list, and the Android XML writer and pull parser. A
      decoder returns None where it throws. */
  datatype Platform = Platform(
    encodeJson: GameState -> string,
    decodeJson: string -> Option<GameState>,
    encodeIndex: seq<SaveGameMetadata> -> string,
    decodeIndex: string -> Option<seq<SaveGameMetadata>>,
    writeXml: seq<XmlEvent> -> string,
    readXml: string -> Option<seq<XmlEvent>>)

  /** The files of the `saved_games` directory. */
  type Files = map<string, string>

  const MetadataFilename: string := "metadata.json"

  // ---------------------------------------------------------------------
  // The save index
  // ---------------------------------------------------------------------

  /** `readMetadata`: the stored list; an absent or unreadable index reads
      as the empty list. */
  function ReadMetadata(p: Platform, files: Files): (list: seq<SaveGameMetadata>)
    ensures MetadataFilename !in files ==> list == []
    ensures MetadataFilename in files && p.decodeIndex(files[MetadataFilename]).None? ==> list == []
    ensures MetadataFilename in files && p.decodeIndex(files[MetadataFilename]).Some? ==>
      list == p.decodeIndex(files[MetadataFilename]).value
  {
    if MetadataFilename !in files then []
    else p.decodeIndex(files[MetadataFilename]).GetOr([])
  }

  /** The list with every entry for `filename` removed, the others in
      their order. */
  function Without(list: seq<SaveGameMetadata>, filename: string): (r: seq<SaveGameMetadata>)
    ensures forall m :: m in r <==> m in list && m.filename != filename
    ensures |r| <= |list|
  {
    if list == [] then []
    else
      var last := list[|list| - 1];
      Without(list[..|list| - 1], filename) + (if last.filename == filename then [] else [last])
  }

  /** The index entry `updateMetadata` creates. */
  function NewMetadata(state: GameState, filename: string, now: int): SaveGameMetadata {
    SaveGameMetadata(filename, now, if state.isTwoPlayerMode then "2 Jugadores" else "1 Jugador",
      state.tag, state.player1Score, state.dealerScore)
  }

  /** The list `updateMetadata` writes back. */
  function Upsert(list: seq<SaveGameMetadata>, entry: SaveGameMetadata): seq<SaveGameMetadata> {
    Without(list, entry.filename) + [entry]
  }

  /** `metadataList.removeAll { it.filename == filename }`. */
  method RemoveAll(list: seq<SaveGameMetadata>, filename: string) returns (kept: seq<SaveGameMetadata>)
    ensures kept == Without(list, filename)
  {
    kept := [];
    for i := 0 to |list|
      invariant kept == Without(list[..i], filename)
    {
      assert list[..i + 1][..i] == list[..i];
      if list[i].filename != filename {
        kept := kept + [list[i]];
      }
    }
    assert list[..|list|] == list;
  }

  /** `updateMetadata`: the index read back, the entry for `filename`
      replaced by a fresh one at the end, and the list written again. */
  method UpdateMetadata(p: Platform, files: Files, state: GameState, filename: string, now: int)
    returns (updated: Files)
    ensures updated == files[MetadataFilename := p.encodeIndex(Upsert(ReadMetadata(p, files), NewMetadata(state, filename, now)))]
  {
    var metadataList := ReadMetadata(p, files);
    metadataList := RemoveAll(metadataList, filename);
    var newMetadata := NewMetadata(state, filename, now);
    metadataList := metadataList + [newMetadata];
    updated := files[MetadataFilename := p.encodeIndex(metadataList)];
  }

  /** Removing keeps the entries of other files in their order: the kept
      list is the original with some entries dropped. */
  lemma {:induction false} WithoutKeepsOrder(list: seq<SaveGameMetadata>, filename: string, i: int, j: int)
    requires 0 <= i < j < |Without(list, filename)|
    ensures exists a, b :: 0 <= a < b < |list| && list[a] == Without(list, filename)[i] && list[b] == Without(list, filename)[j]
    decreases |list|
  {
    var init := list[..|list| - 1];
    var w := Without(init, filename);
    var last := list[|list| - 1];
    assert Without(list, filename) == w + (if last.filename == filename then [] else [last]);
    if j < |w| {
      WithoutKeepsOrder(init, filename, i, j);
      var a, b :| 0 <= a < b < |init| && init[a] == w[i] && init[b] == w[j];
      assert list[a] == init[a] && list[b] == init[b];
    } else {
      assert Without(list, filename)[i] in init by {
        assert w[i] in w;
      }
      var a :| 0 <= a < |init| && init[a] == w[i];
      assert list[a] == init[a];
      assert list[|list| - 1] == Without(list, filename)[j];
    }
  }

  /** After an upsert exactly one entry names the file, it is the last one
      and it is the new entry; every other entry of the old list is still
      there and no other entry was added. */
  lemma UpsertLeavesOneEntry(list: seq<SaveGameMetadata>, state: GameState, filename: string, now: int)
    ensures var r := Upsert(list, NewMetadata(state, filename, now));
      && |r| >= 1
      && r[|r| - 1] == SaveGameMetadata(filename, now,
           if state.isTwoPlayerMode then "2 Jugadores" else "1 Jugador",
           state.tag, state.player1Score, state.dealerScore)
      && (forall i :: 0 <= i < |r| - 1 ==> r[i].filename != filename)
      && (forall m :: m in list && m.filename != filename ==> m in r)
      && (forall m :: m in r ==> m in list || m == r[|r| - 1])
  {
    var r := Upsert(list, NewMetadata(state, filename, now));
    var w := Without(list, filename);
    assert r[..|r| - 1] == w;
    forall i | 0 <= i < |r| - 1
      ensures r[i].filename != filename
    {
      assert r[i] == w[i] && w[i] in w;
    }
  }

  // ---------------------------------------------------------------------
  // sortedByDescending { it.timestamp }
  // ---------------------------------------------------------------------

  predicate NewestFirst(list: seq<SaveGameMetadata>) {
    forall i, j :: 0 <= i < j < |list| ==> list[i].timestamp >= list[j].timestamp
  }

  /** Puts `m` in front of the first entry that is not newer. */
  function Insert(m: SaveGameMetadata, sorted: seq<SaveGameMetadata>): (r: seq<SaveGameMetadata>)
    ensures multiset(r) == multiset(sorted) + multiset{m}
    ensures forall x :: x in r ==> x in sorted || x == m
  {
    if sorted == [] then [m]
    else if sorted[0].timestamp <= m.timestamp then [m] + sorted
    else
      assert sorted == [sorted[0]] + sorted[1..];
      [sorted[0]] + Insert(m, sorted[1..])
  }

  /** An entry no older than any entry of a newest-first list can go in
      front of it. */
  lemma ConsNewestFirst(x: SaveGameMetadata, rest: seq<SaveGameMetadata>)
    requires NewestFirst(rest)
    requires forall y :: y in rest ==> x.timestamp >= y.timestamp
    ensures NewestFirst([x] + rest)
  {
    var r := [x] + rest;
    forall i, j | 0 <= i < j < |r|
      ensures r[i].timestamp >= r[j].timestamp
    {
      assert r[j] == rest[j - 1];
      if i == 0 {
        assert rest[j - 1] in rest;
      } else {
        assert r[i] == rest[i - 1];
      }
    }
  }

  /** The head of a newest-first list is its newest entry, and its tail is
      newest first too. */
  lemma HeadIsNewest(sorted: seq<SaveGameMetadata>)
    requires NewestFirst(sorted) && sorted != []
    ensures forall y :: y in sorted ==> sorted[0].timestamp >= y.timestamp
    ensures NewestFirst(sorted[1..])
  {
    forall y | y in sorted
      ensures sorted[0].timestamp >= y.timestamp
    {
      var k :| 0 <= k < |sorted| && sorted[k] == y;
    }
    var tail := sorted[1..];
    forall i, j | 0 <= i < j < |tail|
      ensures tail[i].timestamp >= tail[j].timestamp
    {
      assert tail[i] == sorted[i + 1] && tail[j] == sorted[j + 1];
    }
  }

  /** Inserting into a newest-first list keeps it newest first. */
  lemma {:induction false} InsertKeepsOrder(m: SaveGameMetadata, sorted: seq<SaveGameMetadata>)
    requires NewestFirst(sorted)
    ensures NewestFirst(Insert(m, sorted))
    decreases |sorted|
  {
    if sorted != [] {
      HeadIsNewest(sorted);
      if sorted[0].timestamp <= m.timestamp {
        ConsNewestFirst(m, sorted);
      } else {
        var rest := Insert(m, sorted[1..]);
        InsertKeepsOrder(m, sorted[1..]);
        assert forall y :: y in sorted[1..] ==> y in sorted;
        ConsNewestFirst(sorted[0], rest);
      }
    }
  }

  /** The list `getSavedGamesMetadata` shows: the same entries, newest
      first. */
  function SortNewestFirst(list: seq<SaveGameMetadata>): (r: seq<SaveGameMetadata>)
    ensures multiset(r) == multiset(list)
    ensures NewestFirst(r)
  {
    if list == [] then []
    else
      assert list == [list[0]] + list[1..];
      InsertKeepsOrder(list[0], SortNewestFirst(list[1..]));
      Insert(list[0], SortNewestFirst(list[1..]))
  }

  /** `getSavedGamesMetadata`. */
  function GetSavedGamesMetadata(p: Platform, files: Files): seq<SaveGameMetadata> {
    SortNewestFirst(ReadMetadata(p, files))
  }

  /** The shown list holds exactly the stored entries, as many times as
      they are stored, newest first; with no readable index it is empty. */
  lemma SavedGamesListing(p: Platform, files: Files)
    ensures multiset(GetSavedGamesMetadata(p, files)) == multiset(ReadMetadata(p, files))
    ensures |GetSavedGamesMetadata(p, files)| == |ReadMetadata(p, files)|
    ensures NewestFirst(GetSavedGamesMetadata(p, files))
    ensures MetadataFilename !in files ==> GetSavedGamesMetadata(p, files) == []
  {
    var l := ReadMetadata(p, files);
    assert |GetSavedGamesMetadata(p, files)| == |multiset(GetSavedGamesMetadata(p, files))| == |multiset(l)| == |l|;
  }

  // ---------------------------------------------------------------------
  // Saving and loading
  // ---------------------------------------------------------------------

  /** The file content `saveGame` writes for a format. */
  function Serialize(p: Platform, state: GameState, format: SaveFormat): string {
    match format
    case Json => p.encodeJson(state)
    case Xml => p.writeXml(SerializeToXml(state))
    case Txt => SerializeToTxt(state)
  }

  /** `saveGame`: writes `filename + extension`; only when that write
      succeeded (`written`) is the index updated, stamped `now`. */
  method SaveGame(p: Platform, files: Files, state: GameState, filename: string, format: SaveFormat,
                  written: bool, now: int) returns (success: bool, updated: Files)
    ensures success == written
    ensures !written ==> updated == files
    ensures written ==>
      var full := filename + Extension(format);
      var saved := files[full := Serialize(p, state, format)];
      updated == saved[MetadataFilename := p.encodeIndex(Upsert(ReadMetadata(p, saved), NewMetadata(state, full, now)))]
  {
    var fullFilename := filename + Extension(format);
    var fileContent := Serialize(p, state, format);
    updated := files;
    success := written;
    if success {
      updated := updated[fullFilename := fileContent];
      updated := UpdateMetadata(p, updated, state, fullFilename, now);
    }
  }

  /** The decoder a format's files are read with. */
  function Deserialize(p: Platform, content: string, format: SaveFormat): Option<GameState> {
    match format
    case Json => p.decodeJson(content)
    case Xml =>
      var events :- p.readXml(content);
      XmlDecode(events)
    case Txt => DeserializeFromTxt(content)
  }

  /** `loadGame`: a missing file, an extension other than the three, and a
      decoder that throws all give None. */
  function LoadGame(p: Platform, files: Files, filename: string): (r: Option<GameState>)
    ensures filename !in files ==> r.None?
    ensures FormatOfExtension(FileExtension(filename)).None? ==> r.None?
    ensures filename in files && FormatOfExtension(FileExtension(filename)).Some? ==>
      r == Deserialize(p, files[filename], FormatOfExtension(FileExtension(filename)).value)
  {
    if filename !in files then None
    else
      match FormatOfExtension(FileExtension(filename))
      case None => None
      case Some(format) => Deserialize(p, files[filename], format)
  }

  /** A file stored under a name with one of the three extensions, next to
      any index, is read back through that extension's decoder. */
  lemma LoadsStoredFile(p: Platform, files: Files, filename: string, format: SaveFormat, content: string, index: string)
    requires filename + Extension(format) != MetadataFilename
    ensures var full := filename + Extension(format);
      LoadGame(p, files[full := content][MetadataFilename := index], full) == Deserialize(p, content, format)
  {
    SavedNameDispatchesToItsFormat(filename, format);
  }

  /** A game saved under a name other than the index's, loaded by the full
      name the index records, goes through the decoder of the format it was
      written in and so loads back as saved: exactly for JSON and XML when
      those libraries read back what they wrote, and for TXT with the
      empty moves dropped. */
  lemma SavedGameLoadsBack(p: Platform, files: Files, state: GameState, filename: string, format: SaveFormat, index: string)
    requires filename + Extension(format) != MetadataFilename
    requires format == Json ==> p.decodeJson(p.encodeJson(state)) == Some(state)
    requires format == Xml ==> p.readXml(p.writeXml(SerializeToXml(state))) == Some(SerializeToXml(state)) && XmlSafe(state)
    requires format == Txt ==> TxtSafe(state)
    ensures var full := filename + Extension(format);
      LoadGame(p, files[full := Serialize(p, state, format)][MetadataFilename := index], full)
        == Some(if format == Json then state else state.(moveHistory := NonEmpty(state.moveHistory)))
  {
    LoadsStoredFile(p, files, filename, format, Serialize(p, state, format), index);
    match format {
      case Json =>
      case Xml => XmlRoundTrip(state);
      case Txt => TxtRoundTrip(state);
    }
  }

  /** The save path `saveGame` produces and the one `loadGame` reads meet:
      after a successful save, loading the recorded name gives the state
      back. */
  lemma SaveGameThenLoad(p: Platform, files: Files, state: GameState, filename: string, format: SaveFormat, now: int)
    requires filename + Extension(format) != MetadataFilename
    requires format == Json ==> p.decodeJson(p.encodeJson(state)) == Some(state)
    requires format == Xml ==> p.readXml(p.writeXml(SerializeToXml(state))) == Some(SerializeToXml(state)) && XmlSafe(state)
    requires format == Txt ==> TxtSafe(state)
    ensures var full := filename + Extension(format);
      var saved := files[full := Serialize(p, state, format)];
      var updated := saved[MetadataFilename := p.encodeIndex(Upsert(ReadMetadata(p, saved), NewMetadata(state, full, now)))];
      LoadGame(p, updated, full) == Some(if format == Json then state else state.(moveHistory := NonEmpty(state.moveHistory)))
  {
    var full := filename + Extension(format);
    var saved := files[full := Serialize(p, state, format)];
    SavedGameLoadsBack(p, files, state, filename, format,
      p.encodeIndex(Upsert(ReadMetadata(p, saved), NewMetadata(state, full, now))));
  }

  /** A JSON save named `metadata` is written over the index; the index
      then reads back as empty when the decoder rejects the game object, so
      the index written last holds one entry, naming the file that now
      holds that index, and the saved game is gone. */
  lemma MetadataSaveIsLost(p: Platform, files: Files, state: GameState, now: int)
    requires p.decodeIndex(p.encodeJson(state)).None?
    ensures var saved := files[MetadataFilename := Serialize(p, state, Json)];
      var updated := saved[MetadataFilename := p.encodeIndex(Upsert(ReadMetadata(p, saved), NewMetadata(state, MetadataFilename, now)))];
      && "metadata" + Extension(Json) == MetadataFilename
      && updated.Keys == files.Keys + {MetadataFilename}
      && updated[MetadataFilename] == p.encodeIndex([NewMetadata(state, MetadataFilename, now)])
  {
    var saved := files[MetadataFilename := Serialize(p, state, Json)];
    assert ReadMetadata(p, saved) == [];
    assert Without([], MetadataFilename) == [];
    assert "metadata" + Extension(Json) == MetadataFilename;
    var updated := saved[MetadataFilename := p.encodeIndex(Upsert(ReadMetadata(p, saved), NewMetadata(state, MetadataFilename, now)))];
    assert updated.Keys == files.Keys + {MetadataFilename};
    assert Upsert(ReadMetadata(p, saved), NewMetadata(state, MetadataFilename, now)) == [NewMetadata(state, MetadataFilename, now)];
  }

  // ---------------------------------------------------------------------
  // Importing
  // ---------------------------------------------------------------------

  /** `loadGameFromUri` once the content is read (None where reading
      failed or gave null): blank content is refused; content whose trimmed
      form starts with `{` is first tried as JSON, with `<` as XML; TXT is
      tried last whatever the content. */
  function LoadGameFromUri(p: Platform, content: Option<string>): (r: Option<GameState>)
    ensures content.None? || IsBlank(content.value) ==> r.None?
    ensures (content.Some? && !IsBlank(content.value) && StartsWith(Trim(content.value), '{')
             && p.decodeJson(content.value).Some?) ==> r == p.decodeJson(content.value)
    ensures (content.Some? && !IsBlank(content.value) && StartsWith(Trim(content.value), '{')
             && p.decodeJson(content.value).None?) ==> r == DeserializeFromTxt(content.value)
    ensures (content.Some? && !IsBlank(content.value) && StartsWith(Trim(content.value), '<')
             && p.readXml(content.value).Some? && XmlDecode(p.readXml(content.value).value).Some?)
              ==> r == XmlDecode(p.readXml(content.value).value)
    ensures (content.Some? && !IsBlank(content.value) && StartsWith(Trim(content.value), '<')
             && (p.readXml(content.value).None? || XmlDecode(p.readXml(content.value).value).None?))
              ==> r == DeserializeFromTxt(content.value)
    ensures (content.Some? && !IsBlank(content.value) && !StartsWith(Trim(content.value), '{')
             && !StartsWith(Trim(content.value), '<')) ==> r == DeserializeFromTxt(content.value)
  {
    match content
    case None => None
    case Some(text) =>
      if IsBlank(text) then None
      else
        var trimmed := Trim(text);
        var json := if StartsWith(trimmed, '{') then p.decodeJson(text) else None;
        var xml := if StartsWith(trimmed, '<') then
            (match p.readXml(text) case Some(events) => XmlDecode(events) case None => None)
          else None;
        if json.Some? then json
        else if xml.Some? then xml
        else DeserializeFromTxt(text)
  }

  /** An import fails only when every attempt fails: the JSON attempt (if
      the content looks like JSON), the XML attempt (if it looks like XML)
      and the TXT attempt. */
  lemma ImportFailsOnlyIfAllFail(p: Platform, text: string)
    requires !IsBlank(text)
    ensures LoadGameFromUri(p, Some(text)).None? <==>
      (!StartsWith(Trim(text), '{') || p.decodeJson(text).None?)
      && (!StartsWith(Trim(text), '<') || p.readXml(text).None? || XmlDecode(p.readXml(text).value).None?)
      && DeserializeFromTxt(text).None?
  {
  }

  /** Since TXT is tried last and ignores lines without `=`, non-blank
      content with no `=` that looks like neither JSON nor XML imports as
      a fresh default game rather than failing. */
  lemma ImportWithoutKeysIsDefault(p: Platform, text: string)
    requires !IsBlank(text) && '=' !in text
    requires !StartsWith(Trim(text), '{') && !StartsWith(Trim(text), '<')
    ensures LoadGameFromUri(p, Some(text)) == Some(DefaultGameState)
  {
    LinesChars(text, '=');
    TxtWithoutKeysIsDefault(text);
  }
}
