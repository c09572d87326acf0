/**
 * The four WPF value converters that read an attachment token
 * (`mini|full|kb|name`, with optional parts dropped) for display: the file
 * name, the path and size, the thumbnail and the image test. Each guesses
 * the layout from whether the second field parses as an `int`. The file
 * system and URI checks of the size converter are parameters, and its
 * floating-point "MB" text is left as the byte count it is computed from.
 */
module Converters {
  import opened Core
  import opened Strings
  import opened Repository

  /** `int.TryParse(parts[1], out _)` on a split token. */
  predicate SecondIsSize(parts: seq<string>) {
    |parts| >= 2 && TryParseInt(parts[1]).Some?
  }

  /** `PathToFileNameConverter.Convert`. */
  function FileNameOf(value: Option<string>): (r: string)
    ensures IsNullOrWhiteSpace(value) ==> r == ""
    ensures !IsNullOrWhiteSpace(value) && '|' !in value.value ==> r == GetFileName(value.value)
    ensures !IsNullOrWhiteSpace(value) && '|' in value.value ==>
      var parts := Split(value.value, '|');
      |parts| >= 2
      && (SecondIsSize(parts) ==>
            r == if |parts| >= 3 && !IsBlank(parts[2]) then parts[2] else GetFileName(parts[0]))
      && (!SecondIsSize(parts) ==>
            r == if |parts| >= 4 && !IsBlank(parts[3]) then parts[3] else GetFileName(parts[1]))
  {
    if IsNullOrWhiteSpace(value) then ""
    else
      var path := value.value;
      if '|' !in path then GetFileName(path)
      else
        var parts := Split(path, '|');
        SplitOnSeparator(path, '|');
        if SecondIsSize(parts) then
          if |parts| >= 3 && !IsBlank(parts[2]) then parts[2] else GetFileName(parts[0])
        else
          if |parts| >= 4 && !IsBlank(parts[3]) then parts[3]
          // The input holds a '|', so the source's fallback to parts[0] cannot apply.
          else GetFileName(parts[1])
  }

  /** The path and size in KB the size converter settles on. */
  datatype SizeSelection = SizeSelection(originalPath: string, sizeKb: Int32)

  /** The first half of `PathTokenToSizeMbConverter.Convert`: which path and which size. */
  function SizeSelectionOf(path: string): (r: SizeSelection)
    ensures '|' !in path ==> r == SizeSelection(path, 0)
    ensures '|' in path && SecondIsSize(Split(path, '|')) ==>
      r == SizeSelection(Split(path, '|')[0], TryParseInt(Split(path, '|')[1]).value)
    ensures '|' in path && !SecondIsSize(Split(path, '|')) ==>
      r.originalPath == Split(path, '|')[1]
      && r.sizeKb == (if |Split(path, '|')| >= 3 then ParseOrZero(Split(path, '|')[2]) else 0)
  {
    if '|' !in path then SizeSelection(path, 0)
    else
      var parts := Split(path, '|');
      SplitOnSeparator(path, '|');
      if SecondIsSize(parts) then SizeSelection(parts[0], TryParseInt(parts[1]).value)
      else
        // As in FileNameOf, parts[0] is never the fallback.
        var originalPath := parts[1];
        var sizeKb := if |parts| >= 3 then ParseOrZero(parts[2]) else 0;
        SizeSelection(originalPath, sizeKb)
  }

  /**
   * `PathTokenToSizeMbConverter.Convert`, up to the "MB" text: the size in
   * bytes it displays, or `None` for the empty string. A positive size in
   * the token is used as it is; otherwise a local file's length is asked
   * for (`fileLength` is `None` for a missing file).
   */
  function SizeBytesOf(value: Option<string>, isHttpUrl: string -> bool, fileLength: string -> Option<Int64>)
    : (r: Option<Int64>)
    ensures IsNullOrWhiteSpace(value) ==> r.None?
    ensures r.Some? ==> r.value > 0
    ensures !IsNullOrWhiteSpace(value) && SizeSelectionOf(value.value).sizeKb > 0 ==>
      r == Some(SizeSelectionOf(value.value).sizeKb * 1024)
  {
    if IsNullOrWhiteSpace(value) then None
    else
      var sel := SizeSelectionOf(value.value);
      var sizeBytes: int :=
        if sel.sizeKb > 0 then sel.sizeKb * 1024
        else if !isHttpUrl(sel.originalPath) && fileLength(sel.originalPath).Some? then fileLength(sel.originalPath).value
        else 0;
      if sizeBytes <= 0 then None else Some(sizeBytes)
  }

  /** `PathTokenToThumbnailConverter.Convert`. */
  function ThumbnailOf(value: Option<string>): (r: string)
    ensures IsNullOrWhiteSpace(value) ==> r == ""
    ensures !IsNullOrWhiteSpace(value) ==> StartsWith(value.value, r) && !IsBlank(r)
    ensures !IsNullOrWhiteSpace(value) && '|' !in value.value ==> r == value.value
  {
    if IsNullOrWhiteSpace(value) then ""
    else
      var path := value.value;
      if '|' in path then
        var parts := Split(path, '|');
        JoinStartsWithFirst('|', parts);
        if !IsBlank(parts[0]) then parts[0] else path
      else path
  }

  /** The extensions the client previews as images. */
  predicate IsImageExtension(ext: string) {
    ext == ".png" || ext == ".jpg" || ext == ".jpeg" || ext == ".bmp" || ext == ".gif" || ext == ".webp"
  }

  /** `PathToIsImageConverter.Convert`: the extension of the second field, or of the whole input. */
  function IsImageOf(value: Option<string>): (r: bool)
    ensures IsNullOrWhiteSpace(value) ==> !r
    ensures !IsNullOrWhiteSpace(value) && '|' !in value.value ==>
      (r <==> IsImageExtension(ToLower(GetExtension(value.value))))
    ensures !IsNullOrWhiteSpace(value) && '|' in value.value ==>
      (r <==> IsImageExtension(ToLower(GetExtension(Split(value.value, '|')[1]))))
  {
    if IsNullOrWhiteSpace(value) then false
    else
      var path := value.value;
      var path' :=
        if '|' in path then
          var parts := Split(path, '|');
          SplitOnSeparator(path, '|');
          // As above, parts[0] is never the fallback.
          parts[1]
        else path;
      IsImageExtension(ToLower(GetExtension(path')))
  }

  // ---------------------------------------------------------------------
  // Reading back the tokens the repository builds
  // ---------------------------------------------------------------------

  /** The path a converter falls back to: the full path, or the only path there is. */
  function LastPath(row: EvidenceRow): string
    requires HasPath(row)
  {
    PathFields(row)[|PathFields(row)| - 1]
  }

  /** With both paths present, the full path does not itself read as an `int`. */
  predicate FullNotNumber(row: EvidenceRow)
    requires HasPath(row)
  {
    |PathFields(row)| == 2 ==> TryParseInt(PathFields(row)[1]).None?
  }

  /** How a token splits: a lone path has no '|', anything longer splits into its fields. */
  lemma TokenLayout(row: EvidenceRow)
    requires HasPath(row) && Avoids(row, '|')
    ensures '|' in TokenOf(row).value <==> |Fields(row)| >= 2
    ensures |Fields(row)| >= 2 ==> Split(TokenOf(row).value, '|') == Fields(row)
    ensures |Fields(row)| == 1 ==> TokenOf(row).value == Fields(row)[0]
  {
    var f := Fields(row);
    if |f| >= 2 {
      JoinHasSeparator('|', f);
      TokenSplits(row);
    }
  }

  /** The size field of a token reads back as the size. */
  lemma SizeFieldParses(row: EvidenceRow)
    requires row.pesoKb > 0
    ensures TryParseInt(IntText(row.pesoKb)) == Some(row.pesoKb)
    ensures ParseOrZero(IntText(row.pesoKb)) == row.pesoKb
  {
    ParseIntTextInt32(row.pesoKb);
  }

  /**
   * The file-name converter shows the stored name of every token the
   * repository builds, and the file name of the full (or only) path when
   * the row has no name.
   */
  lemma FileNameRoundTrip(row: EvidenceRow)
    requires HasPath(row) && Avoids(row, '|') && FullNotNumber(row)
    ensures FileNameOf(TokenOf(row)) ==
      if !IsNullOrWhiteSpace(row.nombre) then row.nombre.value else GetFileName(LastPath(row))
  {
    if |Fields(row)| == 1 {
      FileNameOneField(row);
    } else if |PathFields(row)| == 1 {
      FileNameOnePath(row);
    } else {
      FileNameTwoPaths(row);
    }
  }

  /** A token that is a bare path. */
  lemma FileNameOneField(row: EvidenceRow)
    requires HasPath(row) && Avoids(row, '|') && |Fields(row)| == 1
    ensures FileNameOf(TokenOf(row)) ==
      if !IsNullOrWhiteSpace(row.nombre) then row.nombre.value else GetFileName(LastPath(row))
  {
    TokenLayout(row);
  }

  /** A token without a thumbnail: `path|kb`, `path|kb|name` or `path|0|name`. */
  lemma FileNameOnePath(row: EvidenceRow)
    requires HasPath(row) && Avoids(row, '|') && |PathFields(row)| == 1 && |Fields(row)| >= 2
    ensures FileNameOf(TokenOf(row)) ==
      if !IsNullOrWhiteSpace(row.nombre) then row.nombre.value else GetFileName(LastPath(row))
  {
    TokenLayout(row);
    SecondFieldSize(row);
    OnePathNameLayout(row);
    FileNameOfSizedFields(TokenOf(row).value, Fields(row), row.nombre, LastPath(row));
  }

  /** Without a thumbnail the path comes first and the name, when there is one, third. */
  lemma OnePathNameLayout(row: EvidenceRow)
    requires HasPath(row) && |PathFields(row)| == 1
    ensures var f := Fields(row);
      && f[0] == LastPath(row)
      && (|f| >= 3 <==> !IsNullOrWhiteSpace(row.nombre))
      && (|f| >= 3 ==> f[2] == row.nombre.value)
  {
  }

  /** `FileNameOf` on a token whose second field is a size: the third field if any, else the first path's name. */
  lemma FileNameOfSizedFields(t: string, f: seq<string>, name: Option<string>, path: string)
    requires !IsBlank(t) && |f| >= 2 && Split(t, '|') == f && TryParseInt(f[1]).Some?
    requires f[0] == path
    requires |f| >= 3 <==> !IsNullOrWhiteSpace(name)
    requires |f| >= 3 ==> f[2] == name.value
    ensures FileNameOf(Some(t)) == if !IsNullOrWhiteSpace(name) then name.value else GetFileName(path)
  {
    FileNameOfSplit(t, f);
  }

  /** Without a thumbnail, the second field reads as the size, or as 0 before a name. */
  lemma SecondFieldSize(row: EvidenceRow)
    requires HasPath(row) && |PathFields(row)| == 1 && |Fields(row)| >= 2
    ensures TryParseInt(Fields(row)[1]) == Some(Max(row.pesoKb, 0))
  {
    var f := Fields(row);
    if row.pesoKb > 0 {
      SizeFieldParses(row);
    } else {
      assert f[1] == "0" == IntText(0);
      ParseIntTextInt32(0);
    }
  }

  /** A token with a thumbnail: `mini|full`, then the optional size and name. */
  lemma FileNameTwoPaths(row: EvidenceRow)
    requires HasPath(row) && Avoids(row, '|') && |PathFields(row)| == 2 && FullNotNumber(row)
    ensures FileNameOf(TokenOf(row)) ==
      if !IsNullOrWhiteSpace(row.nombre) then row.nombre.value else GetFileName(LastPath(row))
  {
    TokenLayout(row);
    var f := Fields(row);
    FileNameOfSplit(TokenOf(row).value, f);
    if IsNullOrWhiteSpace(row.nombre) {
      assert |f| <= 3;
    } else {
      assert f[3] == row.nombre.value;
    }
  }

  /** `FileNameOf` on a token, in terms of its fields. */
  lemma FileNameOfSplit(t: string, f: seq<string>)
    requires !IsBlank(t) && |f| >= 2 && Split(t, '|') == f
    ensures SecondIsSize(f) ==>
      FileNameOf(Some(t)) == if |f| >= 3 && !IsBlank(f[2]) then f[2] else GetFileName(f[0])
    ensures !SecondIsSize(f) ==>
      FileNameOf(Some(t)) == if |f| >= 4 && !IsBlank(f[3]) then f[3] else GetFileName(f[1])
  {
    JoinHasSeparator('|', f);
  }

  /**
   * The size converter reads a positive stored size back exactly, together
   * with the full (or only) path, and shows it as `kb * 1024` bytes without
   * looking at the file system.
   */
  lemma SizeRoundTrip(row: EvidenceRow, isHttpUrl: string -> bool, fileLength: string -> Option<Int64>)
    requires HasPath(row) && Avoids(row, '|') && FullNotNumber(row) && row.pesoKb > 0
    ensures SizeSelectionOf(TokenOf(row).value) == SizeSelection(LastPath(row), row.pesoKb)
    ensures SizeBytesOf(TokenOf(row), isHttpUrl, fileLength) == Some(row.pesoKb * 1024)
  {
    TokenLayout(row);
    SizeSelectionRoundTrip(row);
  }

  lemma SizeSelectionRoundTrip(row: EvidenceRow)
    requires HasPath(row) && Avoids(row, '|') && FullNotNumber(row) && row.pesoKb > 0
    ensures SizeSelectionOf(TokenOf(row).value) == SizeSelection(LastPath(row), row.pesoKb)
  {
    if |PathFields(row)| == 1 {
      SizeOnePath(row);
    } else {
      SizeTwoPaths(row);
    }
  }

  lemma SizeOnePath(row: EvidenceRow)
    requires HasPath(row) && Avoids(row, '|') && |PathFields(row)| == 1 && row.pesoKb > 0
    ensures SizeSelectionOf(TokenOf(row).value) == SizeSelection(LastPath(row), row.pesoKb)
  {
    TokenLayout(row);
    var f := Fields(row);
    assert f[0] == LastPath(row) && f[1] == IntText(row.pesoKb);
    SizeSelectionOfFields(TokenOf(row).value, f, 0, row.pesoKb);
  }

  lemma SizeTwoPaths(row: EvidenceRow)
    requires HasPath(row) && Avoids(row, '|') && |PathFields(row)| == 2 && FullNotNumber(row) && row.pesoKb > 0
    ensures SizeSelectionOf(TokenOf(row).value) == SizeSelection(LastPath(row), row.pesoKb)
  {
    TokenLayout(row);
    var f := Fields(row);
    assert f[1] == LastPath(row) && f[2] == IntText(row.pesoKb);
    SizeSelectionOfFields(TokenOf(row).value, f, 1, row.pesoKb);
  }

  /** A token whose size field follows its last path reads back that path and size. */
  lemma SizeSelectionOfFields(t: string, f: seq<string>, k: nat, kb: Int32)
    requires '|' in t && Split(t, '|') == f && k <= 1 && |f| >= k + 2 && kb > 0
    requires f[k + 1] == IntText(kb)
    requires k == 1 ==> TryParseInt(f[1]).None?
    ensures SizeSelectionOf(t) == SizeSelection(f[k], kb)
  {
    ParseIntTextInt32(kb);
    SizeSelectionOfSplit(t, f);
  }

  /** `SizeSelectionOf` on a token already known to split into `f`. */
  lemma SizeSelectionOfSplit(t: string, f: seq<string>)
    requires '|' in t && Split(t, '|') == f
    ensures |f| >= 2
    ensures SecondIsSize(f) ==> SizeSelectionOf(t) == SizeSelection(f[0], TryParseInt(f[1]).value)
    ensures !SecondIsSize(f) ==>
      SizeSelectionOf(t) == SizeSelection(f[1], if |f| >= 3 then ParseOrZero(f[2]) else 0)
  {
    SplitOnSeparator(t, '|');
  }

  /** The thumbnail converter shows the thumbnail path when there is one, else the only path. */
  lemma ThumbnailRoundTrip(row: EvidenceRow)
    requires HasPath(row) && Avoids(row, '|')
    ensures ThumbnailOf(TokenOf(row)) == PathFields(row)[0]
  {
    TokenLayout(row);
  }

  /**
   * A token without a thumbnail but with a size or a name is never an
   * image: the image converter takes the extension of the second field,
   * which is then the size.
   */
  lemma IsImageReadsSizeField(row: EvidenceRow)
    requires HasPath(row) && Avoids(row, '|')
    requires |PathFields(row)| == 1 && (row.pesoKb > 0 || !IsNullOrWhiteSpace(row.nombre))
    ensures !IsImageOf(TokenOf(row))
  {
    TokenLayout(row);
    var f := Fields(row);
    assert AllDigits(f[1]) by {
      if row.pesoKb > 0 {
        assert f[1] == IntText(row.pesoKb);
      } else {
        assert f[1] == "0";
      }
    }
    assert '.' !in f[1];
    assert GetExtension(f[1]) == [];
  }

  /** With a thumbnail present the image test is the full path's extension. */
  lemma IsImageOfFullPath(row: EvidenceRow)
    requires HasPath(row) && Avoids(row, '|') && |PathFields(row)| == 2
    ensures IsImageOf(TokenOf(row)) <==> IsImageExtension(ToLower(GetExtension(row.rutaFull.value)))
  {
    TokenLayout(row);
  }
}
