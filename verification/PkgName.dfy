/** Package versions as text: name-version_revision, and the file names of binary packages. */
module PkgName {
  import opened Common
  import opened PathBuffer

  const EXTENSION := ".flappy"

  predicate Digit(c: char)
  {
    '0' <= c <= '9'
  }

  /** strrchr: the last place of `c`, or -1. */
  function LastIndex(s: string, c: char): (i: int)
    ensures -1 <= i < |s|
    ensures i >= 0 ==> s[i] == c
    ensures forall k | i < k < |s| :: s[k] != c
  {
    if s == "" then -1
    else if s[|s| - 1] == c then |s| - 1
    else LastIndex(s[..|s| - 1], c)
  }

  lemma LastIndexIs(s: string, a: string, c: char, b: string)
    requires c !in b && s == a + [c] + b
    ensures LastIndex(s, c) == |a| && s[..|a|] == a && s[|a| + 1..] == b
  {
    assert s[|a|] == c;
    assert forall k | |a| < k < |s| :: s[k] == b[k - |a| - 1];
  }

  /** The text around the last place of `c`. */
  lemma Around(s: string, c: char)
    ensures var i := LastIndex(s, c);
            c !in s[i + 1..] && (i >= 0 ==> s == s[..i] + [c] + s[i + 1..])
  {
  }

  // ---------------------------------------------------------------- the version

  predicate IsRevision(s: string)
  {
    s != "" && forall c <- s :: Digit(c) || c == '_'
  }

  /** A digit somewhere before the first underscore, and a revision after it. */
  predicate Version(v: string)
  {
    exists u ::
      0 <= u < |v| && v[u] == '_' && '_' !in v[..u] && (exists c <- v[..u] :: Digit(c)) && IsRevision(v[u + 1..])
  }

  ghost function VersionOf(pkg: string): Option<string>
  {
    var i := LastIndex(pkg, '-');
    if i >= 0 && Version(pkg[i + 1..]) then Some(pkg[i + 1..]) else None
  }

  method CheckRevision(s: string) returns (ok: bool)
    ensures ok <==> IsRevision(s)
  {
    if |s| == 0 {
      return false;
    }
    var i := 0;
    while i < |s| && (Digit(s[i]) || s[i] == '_')
      invariant i <= |s| && forall c <- s[..i] :: Digit(c) || c == '_'
    {
      assert s[..i + 1] == s[..i] + [s[i]];
      i := i + 1;
    }
    ok := i == |s|;
    assert s[..|s|] == s;
    assert i < |s| ==> s[i] in s;
  }

  /** strchr: the first place of `c` from `i` on, or the length. */
  method FindFrom(s: string, i: nat, c: char) returns (r: nat)
    requires i <= |s|
    ensures i <= r <= |s| && c !in s[i..r] && (r < |s| ==> s[r] == c)
  {
    r := i;
    while r < |s| && s[r] != c
      invariant i <= r <= |s| && c !in s[i..r]
    {
      assert s[i..r + 1] == s[i..r] + [s[r]];
      r := r + 1;
    }
  }

  /** The scan for a version: the first digit that has an underscore after it decides. */
  method ScanVersion(v: string) returns (valid: bool)
    ensures valid <==> Version(v)
  {
    hide Version, IsRevision;
    var i := 0;
    while i < |v|
      invariant i <= |v| && '_' !in v[..i]
      invariant (exists c <- v[..i] :: Digit(c)) ==> '_' !in v
    {
      assert v[..i + 1] == v[..i] + [v[i]];
      if v[i] == '_' {
        NoDigit(v, i);
        return false;
      }
      if Digit(v[i]) {
        var r := FindFrom(v, i + 1, '_');
        if r < |v| {
          Decides(v, i, r);
          valid := CheckRevision(v[r + 1..]);
          return;
        }
        assert v == v[..i + 1] + v[i + 1..|v|];
      }
      i := i + 1;
    }
    assert v[..|v|] == v;
    NoUnderscore(v);
    valid := false;
  }

  lemma NoDigit(v: string, i: nat)
    requires i < |v| && v[i] == '_' && '_' !in v[..i] && ((exists c <- v[..i] :: Digit(c)) ==> '_' !in v)
    ensures !Version(v)
  {
    assert v[i] in v;
    First(v, i);
  }

  lemma NoUnderscore(v: string)
    requires '_' !in v
    ensures !Version(v)
  {
    assert forall u | 0 <= u < |v| :: v[u] in v;
  }

  lemma Decides(v: string, i: nat, r: nat)
    requires i < r < |v| && '_' !in v[..i] && v[i] != '_' && Digit(v[i]) && '_' !in v[i + 1..r] && v[r] == '_'
    ensures Version(v) <==> IsRevision(v[r + 1..])
  {
    assert v[..r] == v[..i] + [v[i]] + v[i + 1..r];
    assert v[i] in v[..r];
    First(v, r);
  }

  lemma First(v: string, r: nat)
    requires r < |v| && v[r] == '_' && '_' !in v[..r]
    ensures forall u | 0 <= u < |v| && v[u] == '_' && '_' !in v[..u] :: u == r
  {
    assert forall k | 0 <= k < r :: v[k] == v[..r][k];
    forall u | 0 <= u < |v| && v[u] == '_' && '_' !in v[..u]
      ensures u == r
    {
      assert forall k | 0 <= k < u :: v[k] == v[..u][k];
    }
  }

  method FindLast(s: string, c: char) returns (i: int)
    ensures i == LastIndex(s, c)
  {
    i := |s| - 1;
    assert s[..|s|] == s;
    while i >= 0 && s[i] != c
      invariant -1 <= i < |s| && LastIndex(s, c) == LastIndex(s[..i + 1], c)
    {
      assert s[..i + 1][..i] == s[..i];
      i := i - 1;
    }
  }

  method PkgVersion(pkg: string) returns (r: Option<string>)
    ensures r == VersionOf(pkg)
  {
    var p := FindLast(pkg, '-');
    if p < 0 {
      return None;
    }
    var valid := ScanVersion(pkg[p + 1..]);
    r := if valid then Some(pkg[p + 1..]) else None;
  }

  /** Succeeds exactly when there is a version and the name fits; then name, dash and version make up the whole. */
  method PkgName(dst: array<char>, len: nat, pkg: string) returns (ok: bool)
    requires len <= dst.Length && '\0' !in pkg
    modifies dst
    ensures ok <==> VersionOf(pkg).Some? && |pkg| - |VersionOf(pkg).value| <= len
    ensures ok ==> '\0' in dst[..] && pkg == Text(dst[..]) + "-" + VersionOf(pkg).value
    ensures !ok ==> dst[..] == old(dst[..])
  {
    hide Version, Text, LastIndex;
    var p := FindLast(pkg, '-');
    if p < 0 {
      return false;
    }
    var valid := ScanVersion(pkg[p + 1..]);
    if !valid || p + 1 > len {
      return false;
    }
    CopyName(dst, pkg, p);
    ok := true;
  }

  method CopyName(dst: array<char>, pkg: string, p: nat)
    requires p < dst.Length && p < |pkg| && '\0' !in pkg && pkg[p] == '-'
    modifies dst
    ensures '\0' in dst[..] && pkg == Text(dst[..]) + "-" + pkg[p + 1..]
  {
    hide Text;
    Dash(pkg, p);
    var n := AppendText(dst, 0, pkg[..p]);
    dst[n] := '\0';
    assert dst[..][..n] == dst[..n] == pkg[..p] && dst[..][n] == '\0';
    TextEnds(dst[..], n);
  }

  lemma Dash(pkg: string, p: nat)
    requires p < |pkg| && '\0' !in pkg && pkg[p] == '-'
    ensures '\0' !in pkg[..p] && pkg == pkg[..p] + "-" + pkg[p + 1..]
  {
  }

  /** The version is what follows a dash, has no dash in it and reads as a version; nothing else is. */
  lemma VersionExactly(pkg: string, v: string)
    ensures VersionOf(pkg) == Some(v)
            <==> Version(v) && '-' !in v && |v| < |pkg| && pkg == pkg[..|pkg| - |v| - 1] + "-" + v
  {
    hide Version, LastIndex;
    Around(pkg, '-');
    if '-' !in v && |v| < |pkg| && pkg == pkg[..|pkg| - |v| - 1] + "-" + v {
      LastIndexIs(pkg, pkg[..|pkg| - |v| - 1], '-', v);
    }
  }

  /** A version in terms of its characters: it has an underscore, a decimal digit before the first one, and after it
      decimal digits and underscores, at least one. */
  lemma VersionSpelled(v: string)
    ensures Version(v) <==>
            exists u | 0 <= u < |v| && v[u] == '_' ::
              && (forall k | 0 <= k < u :: v[k] != '_') && (exists k | 0 <= k < u :: v[k] in "0123456789")
              && u + 1 < |v| && forall k | u < k < |v| :: v[k] in "0123456789_"
  {
    forall u | 0 <= u < |v| && v[u] == '_'
      ensures '_' !in v[..u] && (exists c <- v[..u] :: Digit(c)) && IsRevision(v[u + 1..]) <==>
              && (forall k | 0 <= k < u :: v[k] != '_') && (exists k | 0 <= k < u :: v[k] in "0123456789")
              && u + 1 < |v| && forall k | u < k < |v| :: v[k] in "0123456789_"
    {
      VersionAt(v, u);
    }
  }

  lemma Decimal(c: char)
    ensures Digit(c) <==> c in "0123456789"
    ensures Digit(c) || c == '_' <==> c in "0123456789_"
  {
  }

  lemma VersionAt(v: string, u: nat)
    requires u < |v|
    ensures '_' !in v[..u] <==> forall k | 0 <= k < u :: v[k] != '_'
    ensures (exists c <- v[..u] :: Digit(c)) <==> exists k | 0 <= k < u :: v[k] in "0123456789"
    ensures IsRevision(v[u + 1..]) <==> u + 1 < |v| && forall k | u < k < |v| :: v[k] in "0123456789_"
  {
    forall c
      ensures Digit(c) <==> c in "0123456789"
      ensures Digit(c) || c == '_' <==> c in "0123456789_"
    {
      Decimal(c);
    }
    hide Digit;
    assert forall k | 0 <= k < u :: v[..u][k] == v[k];
    var s := v[u + 1..];
    assert forall k | u < k < |v| :: v[k] == s[k - u - 1];
  }

  // ---------------------------------------------------------------- file names of binary packages

  /** The file name without directory and extension, of which only the length is looked at. */
  ghost function Stem(file: string): Option<string>
  {
    var fname := file[LastIndex(file, '/') + 1..];
    if |fname| < |EXTENSION| then None else Some(fname[..|fname| - |EXTENSION|])
  }

  ghost function BinPkgver(file: string): Option<string>
  {
    var stem := Stem(file);
    if stem.None? || LastIndex(stem.value, '.') < 0 then None
    else
      var p := stem.value[..LastIndex(stem.value, '.')];
      if VersionOf(p).None? then None else Some(p)
  }

  ghost function BinArch(file: string): Option<string>
  {
    var stem := Stem(file);
    if stem.None? || LastIndex(stem.value, '.') < 0 then None
    else Some(stem.value[LastIndex(stem.value, '.') + 1..])
  }

  method BinpkgStem(file: string) returns (r: Option<string>)
    ensures r == Stem(file)
  {
    var i := FindLast(file, '/');
    var fname := file[i + 1..];
    r := if |fname| < |EXTENSION| then None else Some(fname[..|fname| - |EXTENSION|]);
  }

  method BinpkgPkgver(file: string) returns (r: Option<string>)
    ensures r == BinPkgver(file)
  {
    var stem := BinpkgStem(file);
    if stem.None? {
      return None;
    }
    var i := FindLast(stem.value, '.');
    if i < 0 {
      return None;
    }
    var version := PkgVersion(stem.value[..i]);
    r := if version.None? then None else Some(stem.value[..i]);
  }

  method BinpkgArch(file: string) returns (r: Option<string>)
    ensures r == BinArch(file)
  {
    var stem := BinpkgStem(file);
    if stem.None? {
      return None;
    }
    var i := FindLast(stem.value, '.');
    r := if i < 0 then None else Some(stem.value[i + 1..]);
  }

  /** The format in which files of binary packages are named. */
  function PkgPath(repo: string, pkgver: string, arch: string): string
  {
    repo + "/" + (pkgver + "." + arch + EXTENSION)
  }

  /** Both parts are recovered from the file name, which ends in ".flappy". */
  lemma PathRoundTrip(repo: string, pkgver: string, arch: string)
    requires VersionOf(pkgver).Some? && '/' !in pkgver && '/' !in arch && '.' !in arch
    ensures PkgPath(repo, pkgver, arch) == repo + "/" + pkgver + "." + arch + ".flappy"
    ensures BinPkgver(PkgPath(repo, pkgver, arch)) == Some(pkgver)
    ensures BinArch(PkgPath(repo, pkgver, arch)) == Some(arch)
  {
    hide VersionOf, LastIndex;
    var file, fname := PkgPath(repo, pkgver, arch), pkgver + "." + arch + EXTENSION;
    assert file == repo + "/" + pkgver + "." + arch + ".flappy";
    var stem := pkgver + "." + arch;
    LastIndexIs(file, repo, '/', fname);
    assert fname[..|fname| - |EXTENSION|] == stem;
    LastIndexIs(stem, pkgver, '.', arch);
  }

  /** Whatever file name yields a version and an architecture is made up of them: a directory, the version, a dot, the
      architecture and seven more characters. */
  lemma PathOnly(file: string, pkgver: string, arch: string)
    requires BinPkgver(file) == Some(pkgver) && BinArch(file) == Some(arch)
    ensures VersionOf(pkgver).Some? && '/' !in pkgver && '/' !in arch && '.' !in arch
    ensures exists dir, ext :: MadeOf(file, dir, pkgver, arch, ext)
  {
    hide MadeOf, VersionOf, LastIndex, Stem;
    var stem := Stem(file).value;
    Around(stem, '.');
    assert stem == pkgver + ['.'] + arch;
    var dir, fname, ext := FromStem(file, stem);
    Parts(file, dir, fname, stem, ext, pkgver, arch);
  }

  /** `file` is a directory, then `pkgver`, a dot, `arch` and an extension of seven characters. */
  ghost predicate MadeOf(file: string, dir: string, pkgver: string, arch: string, ext: string)
  {
    && |ext| == 7 && (dir == "" || dir[|dir| - 1] == '/')
    && file == dir + (pkgver + "." + arch + ext)
  }

  lemma FromStem(file: string, stem: string) returns (dir: string, fname: string, ext: string)
    requires Stem(file) == Some(stem)
    ensures file == dir + fname && (dir == "" || dir[|dir| - 1] == '/')
    ensures '/' !in fname && fname == stem + ext && |ext| == |EXTENSION|
  {
    StemIs(file, stem);
    Around(file, '/');
    hide *;
    var i := LastIndex(file, '/');
    Halves(file, i);
    Ending(file[i + 1..], |EXTENSION|);
    dir, fname := file[..i + 1], file[i + 1..];
    ext := fname[|fname| - |EXTENSION|..];
  }

  lemma StemIs(file: string, stem: string)
    requires Stem(file) == Some(stem)
    ensures var fname := file[LastIndex(file, '/') + 1..];
            |fname| >= |EXTENSION| && stem == fname[..|fname| - |EXTENSION|]
  {
  }

  lemma Halves(s: string, i: int)
    requires -1 <= i < |s| && (i >= 0 ==> s[i] == '/')
    ensures s == s[..i + 1] + s[i + 1..] && (s[..i + 1] == "" || s[..i + 1][i] == '/')
  {
  }

  lemma Ending(s: string, m: nat)
    requires m <= |s|
    ensures s == s[..|s| - m] + s[|s| - m..] && |s[|s| - m..]| == m
  {
  }

  lemma Parts(file: string, dir: string, fname: string, stem: string, ext: string, pkgver: string, arch: string)
    requires file == dir + fname && (dir == "" || dir[|dir| - 1] == '/') && '/' !in fname
    requires fname == stem + ext && |ext| == |EXTENSION| && stem == pkgver + ['.'] + arch
    ensures '/' !in pkgver && '/' !in arch
    ensures exists dir, ext :: MadeOf(file, dir, pkgver, arch, ext)
  {
    assert fname == pkgver + "." + arch + ext;
    assert MadeOf(file, dir, pkgver, arch, ext);
  }
}
