/** The save formats (ui/utils/SaveFormat.kt) and how their extensions meet
    the loader's dispatch on `File.extension`. */
module SaveFormats {
  import opened Options
  import opened Text

  datatype SaveFormat = Json | Xml | Txt

  /** `SaveFormat.values()`. */
  const AllFormats: seq<SaveFormat> := [Json, Xml, Txt]

  /** `format.extension`, dot included. */
  function Extension(f: SaveFormat): (e: string)
    ensures |e| >= 2 && e[0] == '.'
    ensures '.' !in e[1..] && '/' !in e
  {
    match f
    case Json => ".json"
    case Xml => ".xml"
    case Txt => ".txt"
  }

  /** The `when (file.extension)` of `loadGame`: which decoder a file
      extension selects, None for any other extension. */
  function FormatOfExtension(ext: string): (r: Option<SaveFormat>)
    ensures r.Some? ==> Extension(r.value) == "." + ext
    ensures forall f :: Extension(f) == "." + ext ==> r == Some(f)
  {
    if ext == "json" then Some(Json)
    else if ext == "xml" then Some(Xml)
    else if ext == "txt" then Some(Txt)
    else None
  }

  /** There are exactly three formats and no two share an extension. */
  lemma ExtensionsDistinct()
    ensures |AllFormats| == 3
    ensures forall f :: f in AllFormats
    ensures forall i, j :: 0 <= i < j < |AllFormats| ==> Extension(AllFormats[i]) != Extension(AllFormats[j])
  {
    forall f
      ensures f in AllFormats
    {
      match f
      case Json => assert AllFormats[0] == f;
      case Xml => assert AllFormats[1] == f;
      case Txt => assert AllFormats[2] == f;
    }
  }

  /** `saveGame` names the file `filename + extension`; whatever `filename`
      is, the loader reads that name's extension back as the key of the
      format it was written in. */
  lemma SavedNameDispatchesToItsFormat(filename: string, f: SaveFormat)
    ensures FileExtension(filename + Extension(f)) == Extension(f)[1..]
    ensures FormatOfExtension(FileExtension(filename + Extension(f))) == Some(f)
  {
    var e := Extension(f);
    assert e == ['.'] + e[1..];
    assert filename + e == filename + ['.'] + e[1..];
    ExtensionOfAppended(filename, e[1..]);
  }
}
