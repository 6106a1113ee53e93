/** The two parts of Node's POSIX `path` module the upload callbacks use:
    `path.extname(p)` and `path.basename(p, path.extname(p))`. Both look only
    at the last component of `p`, after trailing slashes are ignored. */
module NodePath {
  import opened Common

  /** `p` without its trailing slashes. */
  function StripTrailingSlashes(p: string): (r: string)
    ensures |r| <= |p| && r == p[..|r|]
    ensures r == [] || r[|r| - 1] != '/'
    ensures forall i :: |r| <= i < |p| ==> p[i] == '/'
  {
    if p != [] && p[|p| - 1] == '/' then StripTrailingSlashes(p[..|p| - 1]) else p
  }

  /** The text after the last slash of `p`. */
  function AfterLastSlash(p: string): (r: string)
    ensures |r| <= |p| && r == p[|p| - |r|..]
    ensures '/' !in r
    ensures |r| < |p| ==> p[|p| - |r| - 1] == '/'
  {
    if p == [] || p[|p| - 1] == '/' then []
    else AfterLastSlash(p[..|p| - 1]) + [p[|p| - 1]]
  }

  /** The last path component, as `basename` and `extname` see it. */
  function LastComponent(p: string): (r: string)
    ensures '/' !in r
  {
    AfterLastSlash(StripTrailingSlashes(p))
  }

  /** The index of the last `c` in `s`. */
  function LastIndexOf(s: string, c: char): (r: Option<nat>)
    ensures r.None? <==> c !in s
    ensures r.Some? ==> r.value < |s| && s[r.value] == c
                        && forall j :: r.value < j < |s| ==> s[j] != c
  {
    if s == [] then None
    else if s[|s| - 1] == c then Some(|s| - 1)
    else
      var r := LastIndexOf(s[..|s| - 1], c);
      assert forall j :: 0 <= j < |s| - 1 ==> s[..|s| - 1][j] == s[j];
      r
  }

  /** The extension of one path component: from its last dot to its end;
      empty when it has no dot, when that dot is its first character
      (".profile"), or when the component is "..". */
  function ComponentExt(b: string): (e: string)
    ensures |e| <= |b| && e == b[|b| - |e|..]
    ensures e != [] ==> e[0] == '.' && '.' !in e[1..] && |e| < |b|
    ensures '.' in b && b[0] != '.' ==> e != []
    ensures '/' !in b ==> '/' !in e
  {
    match LastIndexOf(b, '.')
    case None => ""
    case Some(d) =>
      if d == 0 || b == ".." then ""
      else
        var e := b[d..];
        assert '.' !in e[1..] by {
          forall j | 0 <= j < |e| - 1 ensures e[1..][j] != '.' {
            assert e[1..][j] == b[d + 1 + j];
          }
        }
        assert forall j :: 0 <= j < |e| ==> e[j] == b[d + j];
        e
  }

  /** `path.extname(p)`: the extension of the last component. */
  function ExtName(p: string): (e: string)
    ensures var b := LastComponent(p);
      && |e| <= |b| && e == b[|b| - |e|..]
      && (e != [] ==> e[0] == '.' && '.' !in e[1..] && |e| < |b|)
      && ('.' in b && b[0] != '.' ==> e != [])
      && '/' !in e
  {
    ComponentExt(LastComponent(p))
  }

  /** One component without its extension. */
  function ComponentStem(b: string): (r: string)
    ensures r + ComponentExt(b) == b
    ensures ComponentExt(b) != [] ==> r != []
  {
    var n := |b| - |ComponentExt(b)|;
    assert b == b[..n] + b[n..];
    b[..n]
  }

  /** `path.basename(p, path.extname(p))`: the last component without its
      extension. The two parts put back together give the component. */
  function Stem(p: string): (r: string)
    ensures r + ExtName(p) == LastComponent(p)
    ensures '/' !in r
    ensures ExtName(p) != [] ==> r != []
  {
    var r := ComponentStem(LastComponent(p));
    assert forall j :: 0 <= j < |r| ==> r[j] == LastComponent(p)[j];
    r
  }

  /** A name without slashes is its own last component. */
  lemma {:induction false} NoSlashIsComponent(p: string)
    requires '/' !in p
    ensures LastComponent(p) == p
  {
    assert StripTrailingSlashes(p) == p;
    AfterLastSlashWhole(p);
  }

  lemma {:induction false} AfterLastSlashWhole(p: string)
    requires '/' !in p
    ensures AfterLastSlash(p) == p
  {
    if p != [] {
      assert p[|p| - 1] in p;
      var q := p[..|p| - 1];
      assert '/' !in q by {
        forall j | 0 <= j < |q| ensures q[j] != '/' { assert q[j] == p[j]; }
      }
      AfterLastSlashWhole(q);
      assert q + [p[|p| - 1]] == p;
    }
  }

  /** A slash-free name whose last dot is at `d`, past its first
      character, has extension `p[d..]` and stem `p[..d]`. */
  lemma ExtNameAt(p: string, d: nat)
    requires '/' !in p && 0 < d < |p| && p[0] != '.' && p[d] == '.'
    requires forall j :: d < j < |p| ==> p[j] != '.'
    ensures ExtName(p) == p[d..] && Stem(p) == p[..d]
  {
    NoSlashIsComponent(p);
    assert LastIndexOf(p, '.') == Some(d);
    assert p[..d] + p[d..] == p;
  }

  /** The extension keeps its case: "photo.JPG" has extension ".JPG". */
  lemma ExtNameOfUpperCaseJpg()
    ensures ExtName("photo.JPG") == ".JPG" && Stem("photo.JPG") == "photo"
  {
    ExtNameAt("photo.JPG", 5);
  }

  /** A dot file such as ".profile" has no extension: `basename` keeps it whole. */
  lemma ExtNameOfDotFile(p: string)
    requires '/' !in p && p != [] && p[0] == '.'
    requires forall j :: 0 < j < |p| ==> p[j] != '.'
    ensures ExtName(p) == ""
    ensures Stem(p) == p
  {
    NoSlashIsComponent(p);
    assert LastIndexOf(p, '.') == Some(0);
  }
}
