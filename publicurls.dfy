/**
 * `RegistrosController.MapLocalPathsToPublicUrls`: before a registro leaves
 * the API, every local evidence path inside its attachment tokens is
 * rewritten as a public URL under `/evidencias/`, recursively through its
 * sub-registros. The request's scheme, host and base path, the Evidencias
 * root, and the URI and file-system tests are an environment passed in.
 */
module PublicUrls {
  import opened Core
  import opened Strings
  import opened Dtos
  import opened Repository

  /** What the rewrite reads from the host and the request. */
  datatype HostEnv = HostEnv(
    /** `{Request.Scheme}://{Request.Host}{Request.PathBase}`. */
    urlPrefix: string,
    /** The full Evidencias directory with no trailing separator. */
    evidenciasRoot: string,
    /** `Uri.TryCreate(p, Absolute)` with an http or https scheme. */
    isHttpUrl: string -> bool,
    isPathRooted: string -> bool,
    getFullPath: string -> string)

  /** `s.Replace(a, b)` for characters. */
  function ReplaceChar(s: string, a: char, b: char): (r: string)
    ensures |r| == |s|
    ensures forall i :: 0 <= i < |s| ==> r[i] == (if s[i] == a then b else s[i])
  {
    seq(|s|, i requires 0 <= i < |s| => if s[i] == a then b else s[i])
  }

  /** The public URL of a file below the Evidencias root, given its full path. */
  function EvidenciaUrl(env: HostEnv, fullPath: string): (r: string)
    requires |env.evidenciasRoot| <= |fullPath|
    ensures StartsWith(r, env.urlPrefix + "/evidencias/")
    ensures '\\' !in r[|env.urlPrefix + "/evidencias/"|..]
  {
    var relative := TrimStartWith(fullPath[|env.evidenciasRoot|..], IsDirectorySeparator);
    var tail := ReplaceChar(relative, '\\', '/');
    var r := env.urlPrefix + "/evidencias/" + tail;
    assert r[|env.urlPrefix + "/evidencias/"|..] == tail;
    r
  }

  /** `ToPublicSingle`: one path, rewritten when it is local. */
  function ToPublicSingle(env: HostEnv, path: string): (r: string)
    ensures IsBlank(path) ==> r == path
    ensures !IsBlank(path) && env.isHttpUrl(path) ==> r == path
    ensures !IsBlank(path) && !env.isHttpUrl(path) && !env.isPathRooted(path) ==> r == env.urlPrefix + path
    ensures (!IsBlank(path) && !env.isHttpUrl(path) && env.isPathRooted(path)
             && !StartsWithIgnoreCase(env.getFullPath(path), env.evidenciasRoot)) ==> r == path
    ensures (!IsBlank(path) && !env.isHttpUrl(path) && env.isPathRooted(path)
             && StartsWithIgnoreCase(env.getFullPath(path), env.evidenciasRoot)) ==>
      r == EvidenciaUrl(env, env.getFullPath(path))
    ensures !IsBlank(path) ==> r != []
  {
    if IsBlank(path) then path
    else if env.isHttpUrl(path) then path
    else if !env.isPathRooted(path) then env.urlPrefix + path
    else
      var fullPath := env.getFullPath(path);
      if !StartsWithIgnoreCase(fullPath, env.evidenciasRoot) then path
      else EvidenciaUrl(env, fullPath)
  }

  /**
   * The fields of a split token after the rewrite: the first field is
   * always a path, the second is one too unless the token is short and the
   * second field reads as an `int` (a size); every later field is kept.
   */
  function RewriteFields(env: HostEnv, parts: seq<string>): (r: seq<string>)
    requires |parts| >= 2
    ensures |r| == |parts|
    ensures r[0] == ToPublicSingle(env, parts[0])
    ensures forall i :: 2 <= i < |parts| ==> r[i] == parts[i]
    ensures |parts| <= 3 && TryParseInt(parts[1]).Some? ==> r[1] == parts[1]
    ensures |parts| >= 4 || TryParseInt(parts[1]).None? ==> r[1] == ToPublicSingle(env, parts[1])
  {
    var second := |parts| >= 4 || TryParseInt(parts[1]).None?;
    seq(|parts|, i requires 0 <= i < |parts| =>
      if i == 0 || (i == 1 && second) then ToPublicSingle(env, parts[i]) else parts[i])
  }

  /** `ToPublicUrl`: one attachment token, rewritten field by field. */
  function ToPublicUrl(env: HostEnv, value: string): (r: string)
    ensures IsBlank(value) ==> r == value
    ensures !IsBlank(value) && '|' !in value ==> r == ToPublicSingle(env, value)
    ensures !IsBlank(value) && '|' in value ==>
      |Split(value, '|')| >= 2 && r == Join('|', RewriteFields(env, Split(value, '|')))
  {
    if IsBlank(value) then value
    else if '|' !in value then ToPublicSingle(env, value)
    else
      var parts := Split(value, '|');
      SplitOnSeparator(value, '|');
      // Holding a '|', the value splits into two or more fields, so the
      // source's final `ToPublicSingle(parts[0])` is never reached.
      Join('|', RewriteFields(env, parts))
  }

  /**
   * The number of fields is kept, when the rewritten paths bring in no
   * '|' of their own; the size and name fields come out as they went in.
   */
  lemma RewriteKeepsFields(env: HostEnv, value: string)
    requires !IsBlank(value) && '|' in value
    requires forall i :: 0 <= i < |RewriteFields(env, Split(value, '|'))| ==> '|' !in RewriteFields(env, Split(value, '|'))[i]
    ensures |Split(ToPublicUrl(env, value), '|')| == |Split(value, '|')|
    ensures forall i :: 2 <= i < |Split(value, '|')| ==> Split(ToPublicUrl(env, value), '|')[i] == Split(value, '|')[i]
  {
    SplitJoin('|', RewriteFields(env, Split(value, '|')));
  }

  /** `ToPublicSingle` applied to each path. */
  function PublicPaths(env: HostEnv, paths: seq<string>): (r: seq<string>)
    ensures |r| == |paths|
    ensures forall i :: 0 <= i < |paths| ==> r[i] == ToPublicSingle(env, paths[i])
  {
    seq(|paths|, i requires 0 <= i < |paths| => ToPublicSingle(env, paths[i]))
  }

  /**
   * On every token the repository builds, the rewrite touches exactly the
   * path fields and keeps the size and name fields.
   */
  lemma RewritesPathsOnly(env: HostEnv, row: EvidenceRow)
    requires HasPath(row) && Avoids(row, '|')
    requires |PathFields(row)| == 2 ==> TryParseInt(PathFields(row)[1]).None?
    ensures ToPublicUrl(env, TokenOf(row).value)
      == Join('|', PublicPaths(env, PathFields(row)) + TailFields(row))
  {
    var f := Fields(row);
    var t := TokenOf(row).value;
    if |f| == 1 {
      FieldsAvoid(row, '|');
      assert t == f[0];
    } else {
      JoinHasSeparator('|', f);
      TokenSplits(row);
      RewriteTokenFields(env, row);
    }
  }

  /** The field-wise rewrite of a token with two or more fields. */
  lemma RewriteTokenFields(env: HostEnv, row: EvidenceRow)
    requires HasPath(row) && |Fields(row)| >= 2
    requires |PathFields(row)| == 2 ==> TryParseInt(PathFields(row)[1]).None?
    ensures RewriteFields(env, Fields(row))
      == PublicPaths(env, PathFields(row)) + TailFields(row)
  {
    if |PathFields(row)| == 1 {
      RewriteOnePath(env, row);
    } else {
      RewriteTwoPaths(env, row);
    }
  }

  lemma RewriteOnePath(env: HostEnv, row: EvidenceRow)
    requires HasPath(row) && |Fields(row)| >= 2 && |PathFields(row)| == 1
    ensures RewriteFields(env, Fields(row))
      == PublicPaths(env, PathFields(row)) + TailFields(row)
  {
    var p, rest := PathFields(row), TailFields(row);
    SecondFieldParses(row);
    assert p == [p[0]];
    RewriteAfterOnePath(env, p[0], rest);
  }

  lemma RewriteTwoPaths(env: HostEnv, row: EvidenceRow)
    requires HasPath(row) && |PathFields(row)| == 2 && TryParseInt(PathFields(row)[1]).None?
    ensures RewriteFields(env, Fields(row))
      == PublicPaths(env, PathFields(row)) + TailFields(row)
  {
    var p, rest := PathFields(row), TailFields(row);
    RewriteAfterTwoPaths(env, p, rest);
  }

  /** With one path, the next field is the size, or the "0" put before a name: a number either way. */
  lemma SecondFieldParses(row: EvidenceRow)
    requires HasPath(row) && |PathFields(row)| == 1 && |TailFields(row)| >= 1
    ensures |TailFields(row)| <= 2
    ensures TryParseInt(TailFields(row)[0]).Some?
  {
    var rest := TailFields(row);
    if row.pesoKb > 0 {
      assert rest[0] == IntText(row.pesoKb);
      ParseIntTextInt32(row.pesoKb);
    } else {
      assert rest[0] == "0";
      assert "0" == IntText(0);
      ParseIntTextInt32(0);
    }
  }

  /** The rewrite of one path followed by a number and at most one more field. */
  lemma RewriteAfterOnePath(env: HostEnv, path: string, rest: seq<string>)
    requires 1 <= |rest| <= 2 && TryParseInt(rest[0]).Some?
    ensures RewriteFields(env, [path] + rest) == PublicPaths(env, [path]) + rest
  {
    var f := [path] + rest;
    var r := RewriteFields(env, f);
    var e := [ToPublicSingle(env, path)] + rest;
    assert f[1] == rest[0];
    assert r[0] == e[0];
    assert r[1] == e[1];
    assert |r| == 3 ==> r[2] == f[2] == e[2];
    assert r == e;
    assert PublicPaths(env, [path]) == [ToPublicSingle(env, path)];
  }

  /** The rewrite of two paths, the second not a number, followed by other fields. */
  lemma RewriteAfterTwoPaths(env: HostEnv, paths: seq<string>, rest: seq<string>)
    requires |paths| == 2 && TryParseInt(paths[1]).None?
    ensures RewriteFields(env, paths + rest) == PublicPaths(env, paths) + rest
  {
    var f := paths + rest;
    var r := RewriteFields(env, f);
    var e := PublicPaths(env, paths) + rest;
    assert f[1] == paths[1];
    forall i | 0 <= i < |f| ensures r[i] == e[i] {
      if i >= 2 {
        assert f[i] == rest[i - 2];
      }
    }
  }

  /** `Adjuntos` rewritten entry by entry, empty entries dropped, rejoined with ';'. */
  function MapAdjuntos(env: HostEnv, adjuntos: Option<string>): (r: Option<string>)
    ensures IsNullOrWhiteSpace(adjuntos) ==> r == adjuntos
    ensures !IsNullOrWhiteSpace(adjuntos) ==>
      r == Some(Join(';', PublicTokens(env, SplitNonEmpty(adjuntos.value, ';'))))
  {
    if IsNullOrWhiteSpace(adjuntos) then adjuntos
    else Some(Join(';', PublicTokens(env, SplitNonEmpty(adjuntos.value, ';'))))
  }

  /** `locals.Select(ToPublicUrl)`. */
  function PublicTokens(env: HostEnv, tokens: seq<string>): (r: seq<string>)
    ensures |r| == |tokens|
    ensures forall i :: 0 <= i < |tokens| ==> r[i] == ToPublicUrl(env, tokens[i])
  {
    seq(|tokens|, i requires 0 <= i < |tokens| => ToPublicUrl(env, tokens[i]))
  }

  /**
   * The rewritten `Adjuntos` holds as many entries as the original, entry
   * for entry the rewritten token, when no rewritten token holds a ';'.
   */
  lemma MapAdjuntosEntries(env: HostEnv, adjuntos: string)
    requires !IsBlank(adjuntos)
    requires forall i :: 0 <= i < |SplitNonEmpty(adjuntos, ';')| ==> ';' !in ToPublicUrl(env, SplitNonEmpty(adjuntos, ';')[i])
    ensures SplitNonEmpty(MapAdjuntos(env, Some(adjuntos)).value, ';')
      == PublicTokens(env, SplitNonEmpty(adjuntos, ';'))
  {
    var locals := SplitNonEmpty(adjuntos, ';');
    SplitNonEmptyPieces(adjuntos, ';');
    var urls := PublicTokens(env, locals);
    forall i | 0 <= i < |urls| ensures urls[i] != [] && ';' !in urls[i] {
      var v := locals[i];
      if !IsBlank(v) && '|' in v {
        var parts := Split(v, '|');
        JoinStartsWithFirst('|', RewriteFields(env, parts));
        JoinHasSeparator('|', RewriteFields(env, parts));
      }
    }
    SplitNonEmptyJoin(';', urls);
  }

  /**
   * `MapLocalPathsToPublicUrls`: the registro with its `Adjuntos` rewritten,
   * and every sub-registro rewritten the same way. Nothing else changes.
   */
  function MapRegistro(env: HostEnv, r: RegistroDto): (r': RegistroDto)
    ensures r'.adjuntos == MapAdjuntos(env, r.adjuntos)
    ensures |r'.subRegistros| == |r.subRegistros|
    ensures forall i :: 0 <= i < |r.subRegistros| ==> r'.subRegistros[i] == MapRegistro(env, r.subRegistros[i])
    ensures r'.(adjuntos := r.adjuntos, subRegistros := r.subRegistros) == r
    decreases r
  {
    var subs := seq(|r.subRegistros|, i requires 0 <= i < |r.subRegistros| => MapRegistro(env, r.subRegistros[i]));
    r.(adjuntos := MapAdjuntos(env, r.adjuntos), subRegistros := subs)
  }

  /** The number of registros in a tree. */
  function TreeSize(r: RegistroDto): nat
    decreases r
  {
    1 + SumSizes(r.subRegistros)
  }

  function SumSizes(rs: seq<RegistroDto>): nat
    decreases rs
  {
    if rs == [] then 0 else TreeSize(rs[0]) + SumSizes(rs[1..])
  }

  /** The rewrite keeps the shape of the tree: as many registros, at every level. */
  lemma {:induction false} MapRegistroKeepsSize(env: HostEnv, r: RegistroDto)
    ensures TreeSize(MapRegistro(env, r)) == TreeSize(r)
    decreases r, 1
  {
    MapSubsKeepSize(env, r, r.subRegistros, MapRegistro(env, r).subRegistros);
  }

  lemma {:induction false} MapSubsKeepSize(env: HostEnv, parent: RegistroDto, rs: seq<RegistroDto>, ms: seq<RegistroDto>)
    requires forall i :: 0 <= i < |rs| ==> rs[i] in parent.subRegistros
    requires |ms| == |rs| && forall i :: 0 <= i < |rs| ==> ms[i] == MapRegistro(env, rs[i])
    ensures SumSizes(ms) == SumSizes(rs)
    decreases parent, 0, |rs|
  {
    if rs != [] {
      MapRegistroKeepsSize(env, rs[0]);
      MapSubsKeepSize(env, parent, rs[1..], ms[1..]);
    }
  }
}
