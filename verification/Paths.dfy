/** Path names: removing surplus slashes, splitting into components, dirname and basename, and the walk of
    search_inode. A string is what stands before its terminating NUL. */
module Paths {

  const NAME_MAX := 255

  // ---------------------------------------------------------------------------------------------
  // Surplus slashes

  /** Runs of slashes made one. */
  function Squeeze(s: string): (r: string) {
    if |s| <= 1 then s
    else if s[0] == '/' && s[1] == '/' then Squeeze(s[1..])
    else [s[0]] + Squeeze(s[1..])
  }

  function Trim(s: string): string {
    if |s| > 1 && s[|s| - 1] == '/' then s[..|s| - 1] else s
  }

  function Norm(s: string): string {
    Trim(Squeeze(s))
  }

  predicate NoDouble(s: string) {
    forall i :: 0 <= i < |s| - 1 ==> !(s[i] == '/' && s[i + 1] == '/')
  }

  /** No two slashes in a row, and none at the end of more than one character. */
  predicate Normal(s: string) {
    NoDouble(s) && (|s| > 1 ==> s[|s| - 1] != '/')
  }

  lemma {:induction false} SqueezeNoDouble(s: string)
    ensures NoDouble(Squeeze(s)) && (s == "" <==> Squeeze(s) == "") && (s != "" ==> Squeeze(s)[0] == s[0])
  {
    if |s| > 1 { SqueezeNoDouble(s[1..]); }
  }

  lemma {:induction false} SqueezeKeeps(s: string)
    requires NoDouble(s)
    ensures Squeeze(s) == s
  {
    if |s| > 1 {
      assert NoDouble(s[1..]) by { assert forall i :: 0 <= i < |s[1..]| ==> s[1..][i] == s[i + 1]; }
      SqueezeKeeps(s[1..]);
    }
  }

  /** The result is normal, and a normal path is left alone. */
  lemma NormIsNormal(s: string)
    ensures Normal(Norm(s)) && (s == "" <==> Norm(s) == "") && (Normal(s) ==> Norm(s) == s)
  {
    SqueezeNoDouble(s);
    if Normal(s) { SqueezeKeeps(s); }
  }

  lemma SqueezeStep(s: string, i: nat)
    requires i < |s|
    ensures Squeeze(s[i..]) == if i + 1 < |s| && s[i] == '/' && s[i + 1] == '/' then Squeeze(s[i + 1..]) else [s[i]] + Squeeze(s[i + 1..])
  {
    assert s[i..][1..] == s[i + 1..];
    assert s[|s|..] == "";
  }

  lemma SqueezeEnds(s: string)
    ensures s[0..] == s && s[|s|..] == "" && Squeeze("") == ""
  {
  }

  /** remove_multiple_slashes(input, output) */
  method RemoveMultipleSlashes(input: string) returns (output: string)
    ensures output == Norm(input)
  {
    hide Squeeze;
    SqueezeEnds(input);
    output := "";
    var i := 0;
    assert "" + Squeeze(input) == Squeeze(input);
    while i < |input|
      invariant i <= |input| && output + Squeeze(input[i..]) == Squeeze(input)
    {
      SqueezeStep(input, i);
      // output[count] holds the character either way; only count moves on
      if i + 1 < |input| && input[i] == input[i + 1] && input[i] == '/' {
        i := i + 1;
      } else {
        assert output + ([input[i]] + Squeeze(input[i + 1..])) == output + [input[i]] + Squeeze(input[i + 1..]);
        output := output + [input[i]];
        i := i + 1;
      }
    }
    assert output == Squeeze(input);
    if |output| > 1 && output[|output| - 1] == '/' {
      output := output[..|output| - 1];
    }
  }

  // ---------------------------------------------------------------------------------------------
  // Components

  /** The place of the first slash at or behind i, or the length. */
  function Slash(s: string, i: nat): (k: nat)
    requires i <= |s|
    ensures i <= k <= |s| && (k < |s| ==> s[k] == '/') && forall j :: i <= j < k ==> s[j] != '/'
    decreases |s| - i
  {
    if i == |s| || s[i] == '/' then i else Slash(s, i + 1)
  }

  /** What stands between the slashes. */
  function Split(s: string): (r: seq<string>)
    ensures s == "" <==> r == []
    decreases |s|
  {
    var k := Slash(s, 0);
    if s == "" then [] else if k == |s| then [s] else if k + 1 == |s| then [s[..k]] else [s[..k]] + Split(s[k + 1..])
  }

  /** The components of a normal path, with "/" in front for an absolute one. */
  function Components(p: string): seq<string> {
    if p != "" && p[0] == '/' then ["/"] + Split(p[1..]) else Split(p)
  }

  function Join(names: seq<string>): string {
    if names == [] then "" else if |names| == 1 then names[0] else names[0] + "/" + Join(names[1..])
  }

  function JoinPath(names: seq<string>): string {
    if names != [] && names[0] == "/" then "/" + Join(names[1..]) else Join(names)
  }

  predicate Ends(s: string) {
    s != "" && s[|s| - 1] == '/'
  }

  lemma {:induction false} JoinSplit(s: string)
    requires !Ends(s)
    ensures Join(Split(s)) == s
    decreases |s|
  {
    var k := Slash(s, 0);
    if s != "" && k < |s| {
      var rest := s[k + 1..];
      assert k + 1 < |s|;
      JoinSplit(rest);
      assert Split(s)[1..] == Split(rest);
      assert s == s[..k] + "/" + rest;
    }
  }

  lemma JoinAbsolute(s: string)
    requires !Ends(s)
    ensures JoinPath(["/"] + Split(s)) == "/" + s
  {
    JoinSplit(s);
    hide Join;
    hide Split;
    assert (["/"] + Split(s))[1..] == Split(s);
  }

  lemma FirstName(p: string)
    requires p != "" && p[0] != '/'
    ensures Split(p) != [] && Split(p)[0] != "/"
  {
    var k := Slash(p, 0);
    assert k > 0 && p[..k][0] == p[0];
  }

  /** The components of a normal path, joined by slashes, give the path again. */
  lemma JoinComponents(p: string)
    requires Normal(p)
    ensures JoinPath(Components(p)) == p
  {
    if p != "" && p[0] == '/' {
      assert !Ends(p[1..]) && p == "/" + p[1..];
      JoinAbsolute(p[1..]);
      hide Join;
      hide Split;
    } else {
      assert !Ends(p);
      JoinSplit(p);
      if p != "" { FirstName(p); }
      hide Join;
      hide Split;
    }
  }

  // ---------------------------------------------------------------------------------------------
  // What normalising keeps: the names, and whether the path starts at the root

  /** The nonempty pieces between slashes. */
  function Words(s: string): seq<string>
    decreases |s|
  {
    var k := Slash(s, 0);
    if s == "" then [] else if k == |s| then [s] else (if k == 0 then [] else [s[..k]]) + Words(s[k + 1..])
  }

  lemma WordsNone(s: string)
    requires s != "" && Slash(s, 0) == |s|
    ensures Words(s) == [s]
  {
  }

  lemma WordsFirst(s: string, k: nat)
    requires k == Slash(s, 0) < |s|
    ensures Words(s) == (if k == 0 then [] else [s[..k]]) + Words(s[k + 1..])
  {
    assert s != "";
    hide Slash;
  }

  lemma SlashIs(s: string, k: nat)
    requires k <= |s| && (k < |s| ==> s[k] == '/') && forall j :: 0 <= j < k ==> s[j] != '/'
    ensures Slash(s, 0) == k
  {
  }

  /** Words, character by character. */
  lemma WordsSlash(t: string)
    ensures Words(['/'] + t) == Words(t)
  {
    hide Words;
    var s := ['/'] + t;
    SlashIs(s, 0);
    WordsFirst(s, 0);
    assert s[1..] == t && [] + Words(t) == Words(t);
  }

  lemma WordsLetter(c: char, t: string)
    requires c != '/'
    ensures t == "" || t[0] == '/' ==> Words([c] + t) == [[c]] + Words(t)
    ensures t != "" && t[0] != '/' ==> Words(t) != [] && Words([c] + t) == [[c] + Words(t)[0]] + Words(t)[1..]
  {
    var s, j := [c] + t, Slash(t, 0);
    assert forall i :: 0 <= i < |t| ==> s[i + 1] == t[i];
    SlashIs(s, j + 1);
    if t == "" {
      WordsNone(s);
      assert s == [c] && [[c]] + [] == [[c]];
    } else if j == |t| {
      WordsNone(s);
      WordsNone(t);
      assert [[c] + t] + [] == [s];
    } else {
      WordsFirst(s, j + 1);
      WordsFirst(t, j);
      assert s[..j + 1] == [c] + t[..j] && s[j + 2..] == t[j + 1..];
      if j == 0 {
        assert [c] + t[..0] == [c] && [] + Words(t[1..]) == Words(t[1..]);
      } else {
        assert ([t[..j]] + Words(t[j + 1..]))[1..] == Words(t[j + 1..]);
      }
    }
    hide Slash;
  }

  lemma WordsStep(c: char, t: string)
    ensures Words([c] + t) ==
            if c == '/' then Words(t)
            else if t == "" || t[0] == '/' then [[c]] + Words(t)
            else if Words(t) == [] then [] else [[c] + Words(t)[0]] + Words(t)[1..]
    ensures t != "" && t[0] != '/' ==> Words(t) != []
  {
    WordsSlash(t);
    if c != '/' { WordsLetter(c, t); } else { WordsLetter('a', t); }
    hide Words;
  }

  lemma {:induction false} SqueezeWords(s: string)
    ensures Words(Squeeze(s)) == Words(s)
  {
    if |s| > 1 {
      var t := s[1..];
      assert s == [s[0]] + t;
      SqueezeWords(t);
      SqueezeNoDouble(t);
      WordsStep(s[0], t);
      WordsStep(s[0], Squeeze(t));
    }
  }

  lemma {:induction false} TrimWords(s: string)
    ensures Words(s + "/") == Words(s)
  {
    if s == "" {
      assert s + "/" == ['/'] + "";
      WordsStep('/', "");
    } else {
      var t := s[1..];
      assert s == [s[0]] + t && s + "/" == [s[0]] + (t + "/");
      TrimWords(t);
      WordsStep(s[0], t);
      WordsStep(s[0], t + "/");
      assert t == "" ==> t + "/" == "/";
    }
  }

  lemma {:induction false} SplitWords(s: string)
    requires NoDouble(s) && !Ends(s) && (s != "" ==> s[0] != '/')
    ensures Split(s) == Words(s)
    decreases |s|
  {
    var k := Slash(s, 0);
    if s != "" && k < |s| {
      var rest := s[k + 1..];
      assert forall i :: 0 <= i < |rest| ==> rest[i] == s[k + 1 + i];
      assert k + 1 < |s|;
      SplitWords(rest);
    }
  }

  /** A path without its surplus slashes is its names, joined by single slashes, behind one slash if there was one. */
  lemma NormIs(s: string)
    ensures Norm(s) == (if s != "" && s[0] == '/' then "/" else "") + Join(Words(s))
  {
    var q, p := Squeeze(s), Norm(s);
    NormIsNormal(s);
    SqueezeNoDouble(s);
    SqueezeWords(s);
    if |q| > 1 && q[|q| - 1] == '/' {
      assert q == p + "/";
      TrimWords(p);
    }
    NormalIs(p);
  }

  lemma NormalIs(p: string)
    requires Normal(p)
    ensures p == (if p != "" && p[0] == '/' then "/" else "") + Join(Words(p))
  {
    if p != "" && p[0] == '/' {
      var t := p[1..];
      assert p == ['/'] + t && forall i :: 0 <= i < |t| ==> t[i] == p[i + 1];
      WordsStep('/', t);
      SplitWords(t);
      JoinSplit(t);
    } else {
      SplitWords(p);
      JoinSplit(p);
    }
  }

  /** What the table dirnames[256][256] has room for. */
  predicate Fits(names: seq<string>) {
    |names| <= NAME_MAX + 1 && forall i :: 0 <= i < |names| ==> |names[i]| <= NAME_MAX
  }

  /** strncpy(dirnames[pos], path, 255) */
  function Cut(s: string): (r: string)
    ensures r <= s && (|s| <= 255 ==> r == s) && (|s| > 255 ==> |r| == 255)
  {
    if |s| <= NAME_MAX then s else s[..NAME_MAX]
  }

  lemma SlashFrom(s: string, i: nat)
    requires i <= |s| && forall j :: 0 <= j < i ==> s[j] != '/'
    ensures Slash(s, 0) == Slash(s, i)
  {
    var k := Slash(s, 0);
    assert k < |s| ==> k >= i;
  }

  /** What brk_path adds to a table of pos names for the rest of a path: with 255 names in it, the whole rest
      becomes one last name. */
  function Pieces(path: string, pos: nat): (r: seq<string>)
    decreases |path|
  {
    var k := Slash(path, 0);
    if path == "" then [] else if pos == NAME_MAX || k == |path| then [Cut(path)] else [Cut(path[..k])] + Pieces(path[k + 1..], pos + 1)
  }

  lemma {:induction false} PiecesFit(path: string, pos: nat)
    requires !Ends(path) && pos + |Split(path)| <= NAME_MAX + 1
    requires forall i :: 0 <= i < |Split(path)| ==> |Split(path)[i]| <= NAME_MAX
    ensures Pieces(path, pos) == Split(path)
    decreases |path|
  {
    var k := Slash(path, 0);
    if path != "" && k < |path| {
      var rest := path[k + 1..];
      assert Split(path) == [path[..k]] + Split(rest) && |Split(rest)| >= 1;
      assert |Split(path)[0]| <= NAME_MAX;
      forall i | 0 <= i < |Split(rest)| ensures |Split(rest)[i]| <= NAME_MAX {
        assert Split(path)[i + 1] == Split(rest)[i];
      }
      PiecesFit(rest, pos + 1);
    } else if path != "" {
      assert |Split(path)[0]| <= NAME_MAX;
    }
  }

  /** r is sp with each name cut at 255 characters; of more than m names the last ones are one name together. */
  ghost predicate CutAt(sp: seq<string>, r: seq<string>, m: nat) {
    && |r| == (if |sp| <= m then |sp| else m + 1)
    && (forall i :: 0 <= i < |r| && i < m ==> r[i] == Cut(sp[i]))
    && (|sp| > m ==> r[m] == Cut(Join(sp[m..])))
  }

  lemma CutNext(s: string, sp: seq<string>, r: seq<string>, m: nat)
    requires CutAt(sp, r, m)
    ensures CutAt([s] + sp, [Cut(s)] + r, m + 1)
  {
    hide Cut;
    hide Join;
    assert |sp| > m ==> ([s] + sp)[m + 1..] == sp[m..];
  }

  /** The names brk_path finds behind pos others; once 255 are in the table the rest is one last name. */
  lemma {:induction false} PiecesAre(path: string, pos: nat)
    requires !Ends(path) && pos <= NAME_MAX
    ensures CutAt(Split(path), Pieces(path, pos), NAME_MAX - pos)
    decreases |path|
  {
    var k := Slash(path, 0);
    JoinSplit(path);
    hide CutAt;
    hide Split;
    hide Pieces;
    hide Slash;
    hide Join;
    if path != "" && k < |path| && pos < NAME_MAX {
      PiecesAre(path[k + 1..], pos + 1);
      MorePieces(path, pos, k);
    } else {
      OnePiece(path, pos);
    }
  }

  lemma MorePieces(path: string, pos: nat, k: nat)
    requires k == Slash(path, 0) && k + 1 < |path| && pos < NAME_MAX
    requires CutAt(Split(path[k + 1..]), Pieces(path[k + 1..], pos + 1), NAME_MAX - (pos + 1))
    ensures CutAt(Split(path), Pieces(path, pos), NAME_MAX - pos)
  {
    FirstPiece(path, pos, k);
    CutNext(path[..k], Split(path[k + 1..]), Pieces(path[k + 1..], pos + 1), NAME_MAX - (pos + 1));
    hide CutAt;
    hide Split;
    hide Pieces;
    hide Slash;
    hide Cut;
  }

  lemma FirstPiece(path: string, pos: nat, k: nat)
    requires k == Slash(path, 0) && k + 1 < |path| && pos < NAME_MAX
    ensures Split(path) == [path[..k]] + Split(path[k + 1..])
    ensures Pieces(path, pos) == [Cut(path[..k])] + Pieces(path[k + 1..], pos + 1)
  {
    hide Slash;
    hide Cut;
  }

  lemma OnePiece(path: string, pos: nat)
    requires !Ends(path) && pos <= NAME_MAX && (path == "" || Slash(path, 0) == |path| || pos == NAME_MAX)
    requires Join(Split(path)) == path
    ensures CutAt(Split(path), Pieces(path, pos), NAME_MAX - pos)
  {
    hide Cut;
    hide Join;
    hide Slash;
    var sp := Split(path);
    assert sp[0..] == sp;
  }

  /** What is left of a normal path between two components. */
  predicate Tidy(path: string) {
    NoDouble(path) && !Ends(path) && (path != "" ==> path[0] != '/')
  }

  /** The slash at i is the first one: a name, and the rest behind the slash. */
  lemma PiecesStep(path: string, i: nat, pos: nat)
    requires i < |path| && Slash(path, i) == i && (forall j :: 0 <= j < i ==> path[j] != '/') && Tidy(path) && pos < NAME_MAX
    ensures Pieces(path, pos) == [Cut(path[..i])] + Pieces(path[i + 1..], pos + 1)
    ensures Tidy(path[i + 1..]) && path[i + 1..] != ""
  {
    SlashFrom(path, i);
    var rest := path[i + 1..];
    assert forall j :: 0 <= j < |rest| ==> rest[j] == path[i + 1 + j];
    assert i + 1 < |path|;
  }

  lemma PiecesLast(path: string, pos: nat)
    requires path != "" && (pos == NAME_MAX || forall j :: 0 <= j < |path| ==> path[j] != '/')
    ensures Pieces(path, pos) == [Cut(path)]
  {
  }

  lemma TidyStart(p: string)
    requires Normal(p)
    ensures p != "" && p[0] == '/' ==> Tidy(p[1..]) && Broken(p) == ["/"] + Pieces(p[1..], 1)
    ensures p != "" && p[0] != '/' ==> Tidy(p) && Broken(p) == Pieces(p, 0)
    ensures p == "" ==> Tidy(p) && Broken(p) == [] == Pieces(p, 0)
  {
    if p != "" && p[0] == '/' {
      var rest := p[1..];
      assert forall j :: 0 <= j < |rest| ==> rest[j] == p[1 + j];
    }
  }

  /** brk_path(pathname, dirnames): the names found, in the order of the table */
  method BrkPath(pathname: string) returns (names: seq<string>)
    ensures names == Broken(Norm(pathname))
  {
    hide Norm;
    hide Normal;
    hide Tidy;
    hide Pieces;
    hide Broken;
    hide Cut;
    NormIsNormal(pathname);
    var path := RemoveMultipleSlashes(pathname);
    ghost var all := Broken(path);
    TidyStart(path);
    names := [];
    if |path| > 0 && path[0] == '/' {
      names := ["/"];
      path := path[1..];
    }
    var i := 0;
    while i < |path|
      invariant i <= |path| && |names| < NAME_MAX && forall j :: 0 <= j < i ==> path[j] != '/'
      invariant Tidy(path) && names + Pieces(path, |names|) == all
      decreases |path|, |path| - i
    {
      if path[i] == '/' {
        PiecesStep(path, i, |names|);
        ghost var rest := Pieces(path[i + 1..], |names| + 1);
        assert names + ([Cut(path[..i])] + rest) == names + [Cut(path[..i])] + rest;
        names := names + [Cut(path[..i])];
        path := path[i + 1..];
        TidyFirst(path);
        i := 0;
      }
      if |names| == NAME_MAX {
        break;
      }
      i := i + 1;
    }
    if |path| > 0 {
      PiecesLast(path, |names|);
      names := names + [Cut(path)];
    } else {
      PiecesNone(|names|);
      assert path == "";
    }
  }

  lemma PiecesNone(pos: nat)
    ensures Pieces("", pos) == []
  {
  }

  lemma TidyFirst(path: string)
    requires Tidy(path) && path != ""
    ensures path[0] != '/'
  {
  }

  /** What brk_path makes of a normal path. */
  function Broken(p: string): seq<string> {
    if p != "" && p[0] == '/' then ["/"] + Pieces(p[1..], 1) else Pieces(p, 0)
  }

  /** For every path whose components fit the table, brk_path finds exactly the components, and joined by
      slashes they give the path without its surplus slashes. */
  lemma BrokenJoins(s: string)
    requires Fits(Components(Norm(s)))
    ensures Broken(Norm(s)) == Components(Norm(s)) && JoinPath(Broken(Norm(s))) == Norm(s)
  {
    NormIsNormal(s);
    var p := Norm(s);
    JoinComponents(p);
    if p != "" && p[0] == '/' {
      assert forall i :: 0 <= i < |Split(p[1..])| ==> Components(p)[i + 1] == Split(p[1..])[i];
      PiecesFit(p[1..], 1);
    } else {
      PiecesFit(p, 0);
    }
  }

  // ---------------------------------------------------------------------------------------------
  // dirname and basename

  /** The place of the last slash before n, or -1. */
  function LastSlash(s: string, n: nat): (k: int)
    requires n <= |s|
    ensures -1 <= k < n && (k >= 0 ==> s[k] == '/') && forall j :: k < j < n ==> s[j] != '/'
  {
    if n == 0 then -1 else if s[n - 1] == '/' then n - 1 else LastSlash(s, n - 1)
  }

  /** Of a normal path. */
  function BaseOf(p: string): string {
    if p == "/" || p == "." then p else p[LastSlash(p, |p|) + 1..]
  }

  function DirOf(p: string): string {
    var k := LastSlash(p, |p|);
    if k == -1 then "." else if k == 0 then "/" else p[..k]
  }

  /** basename(pathname, base) */
  method Basename(pathname: string) returns (base: string)
    ensures base == BaseOf(Norm(pathname))
  {
    var path := RemoveMultipleSlashes(pathname);
    if |path| == 1 && (path[0] == '/' || path[0] == '.') {
      return [path[0]];
    }
    var i := |path| - 1;
    while i >= 0
      invariant -1 <= i < |path| && LastSlash(path, |path|) == LastSlash(path, i + 1)
    {
      if path[i] == '/' {
        return path[i + 1..];
      }
      i := i - 1;
    }
    return path;
  }

  /** dirname(pathname, base) */
  method Dirname(pathname: string) returns (base: string)
    ensures base == DirOf(Norm(pathname))
  {
    var path := RemoveMultipleSlashes(pathname);
    var slashes := 0;
    for i := 0 to |path|
      invariant slashes >= 0 && (slashes == 0 <==> forall j :: 0 <= j < i ==> path[j] != '/')
    {
      if path[i] == '/' {
        slashes := slashes + 1;
      }
    }
    if slashes == 0 {
      return ".";
    }
    if path == "/" || path == "." {
      return path;
    }
    var i := |path| - 1;
    base := "";
    while i >= 0
      invariant -1 <= i < |path| && LastSlash(path, |path|) == LastSlash(path, i + 1)
    {
      if path[i] == '/' {
        if i == 0 {
          i := 1;
        }
        base := path[..i];
        break;
      }
      i := i - 1;
    }
  }

  /** The parts of a path around its last slash. */
  lemma Parts(p: string)
    requires Normal(p) && p != "/" && LastSlash(p, |p|) >= 0
    ensures var d, b := DirOf(p), BaseOf(p);
            && p == (if d == "/" then d else d + "/") + b && b != "" && (forall j :: 0 <= j < |b| ==> b[j] != '/')
            && d != "" && Normal(d) && (d != "/" ==> !Ends(d)) && d[0] == p[0]
  {
    var k := LastSlash(p, |p|);
    var d, b := DirOf(p), BaseOf(p);
    assert p == p[..k] + "/" + p[k + 1..];
    assert |p| > 1 && k < |p| - 1;
    assert forall j :: 0 <= j < |b| ==> b[j] == p[k + 1 + j];
    if k > 0 {
      assert p[k - 1] != '/';
      assert d[|d| - 1] == p[k - 1] && forall j :: 0 <= j < |d| ==> d[j] == p[j];
    }
  }

  /** For a path with a slash, other than "/": dirname and basename rejoin to it, the base is one name, and its
      components are those of the directory followed by it. */
  lemma Rejoin(p: string)
    requires Normal(p) && p != "/" && LastSlash(p, |p|) >= 0
    ensures var d, b := DirOf(p), BaseOf(p);
            && p == (if d == "/" then d else d + "/") + b && b != "" && LastSlash(b, |b|) == -1
            && d != "" && Normal(d) && Components(p) == Components(d) + [b]
  {
    Parts(p);
    var d, b := DirOf(p), BaseOf(p);
    hide Split;
    hide DirOf;
    hide BaseOf;
    hide Normal;
    if d == "/" {
      assert p[1..] == b && d[1..] == "";
      SplitOne(b);
      SplitOne("");
    } else if p[0] == '/' {
      var d1 := d[1..];
      assert d1 != "" && d1[|d1| - 1] == d[|d| - 1];
      assert p[1..] == d1 + "/" + b;
      SplitLast(d1, b);
    } else {
      SplitLast(d, b);
    }
  }

  /** The paths without a slash, and the root. */
  lemma PartsAlone(p: string)
    requires Normal(p)
    ensures p == "/" ==> DirOf(p) == "/" && BaseOf(p) == "/"
    ensures (forall j :: 0 <= j < |p| ==> p[j] != '/') ==> DirOf(p) == "." && BaseOf(p) == p
  {
  }

  lemma SplitOne(b: string)
    requires forall j :: 0 <= j < |b| ==> b[j] != '/'
    ensures Split(b) == if b == "" then [] else [b]
  {
  }

  lemma SplitHead(s: string, k: nat)
    requires k + 1 < |s| && s[k] == '/' && forall j :: 0 <= j < k ==> s[j] != '/'
    ensures Split(s) == [s[..k]] + Split(s[k + 1..])
  {
    SlashFrom(s, k);
  }

  lemma {:induction false} SplitLast(d: string, b: string)
    requires d != "" && !Ends(d) && b != "" && forall j :: 0 <= j < |b| ==> b[j] != '/'
    ensures Split(d + "/" + b) == Split(d) + [b]
    decreases |d|
  {
    hide Split;
    var s := d + "/" + b;
    var k := Slash(d, 0);
    assert forall j :: 0 <= j < |d| ==> s[j] == d[j];
    assert s[k] == '/';
    SplitHead(s, k);
    if k == |d| {
      assert s[..k] == d && s[k + 1..] == b;
      SplitOne(b);
      SplitOne(d);
    } else {
      assert s[..k] == d[..k] && s[k + 1..] == d[k + 1..] + "/" + b;
      assert k + 1 < |d|;
      SplitHead(d, k);
      SplitLast(d[k + 1..], b);
      assert [d[..k]] + (Split(d[k + 1..]) + [b]) == [d[..k]] + Split(d[k + 1..]) + [b];
    }
  }

  // ---------------------------------------------------------------------------------------------
  // search_inode

  /** What the directories of the volume hold: the inode a name has in a directory. */
  type Tree = map<(nat, string), nat>

  /** find_inode(name, dir), 0 for no inode */
  function Child(t: Tree, name: string, dir: nat): nat {
    if (dir, name) in t then t[(dir, name)] else 0
  }

  /** The walk over the names. The name "root" leads to the root. */
  function Walk(t: Tree, root: nat, names: seq<string>, from: nat): (r: nat) {
    if names == [] then from
    else
      var last := names[|names| - 1];
      var dir := Walk(t, root, names[..|names| - 1], from);
      if dir == 0 then 0 else if last == "root" then root else Child(t, last, dir)
  }

  function Search(t: Tree, root: nat, cwd: nat, names: seq<string>): nat {
    if names != [] && names[0] == "/" then Walk(t, root, names[1..], root) else Walk(t, root, names, cwd)
  }

  /** search_inode(path), for a path that is not empty */
  method SearchInode(t: Tree, root: nat, cwd: nat, path: string) returns (ino: nat)
    requires path != "" && root != 0 && cwd != 0
    ensures ino == Search(t, root, cwd, Broken(Norm(path)))
  {
    NormIsNormal(path);
    var names := BrkPath(path);
    ino := if names[0] == "/" then root else cwd;
    var off := if names[0] == "/" then 1 else 0;
    ghost var start := ino;
    assert names[off..][..0] == [];
    for i := off to |names|
      invariant ino != 0 && ino == Walk(t, root, names[off..][..i - off], start)
    {
      WalkStep(t, root, names[off..], start, i - off);
      if names[i] == "root" {
        ino := root;
      } else {
        ino := Child(t, names[i], ino);
      }
      if ino == 0 {
        WalkStops(t, root, names[off..], start, i + 1 - off);
        return 0;
      }
    }
    assert names[off..][..|names| - off] == names[off..];
  }

  lemma WalkStep(t: Tree, root: nat, names: seq<string>, from: nat, i: nat)
    requires i < |names|
    ensures Walk(t, root, names[..i + 1], from) ==
            var dir := Walk(t, root, names[..i], from);
            if dir == 0 then 0 else if names[i] == "root" then root else Child(t, names[i], dir)
  {
    assert names[..i + 1][..i] == names[..i];
  }

  lemma {:induction false} WalkStops(t: Tree, root: nat, names: seq<string>, from: nat, i: nat)
    requires i <= |names| && Walk(t, root, names[..i], from) == 0
    ensures Walk(t, root, names, from) == 0
    decreases |names| - i
  {
    if i == |names| {
      assert names[..i] == names;
    } else {
      WalkStep(t, root, names, from, i);
      WalkStops(t, root, names, from, i + 1);
    }
  }

  /** An absolute path starts at the root whatever the working directory, a relative one at the working directory. */
  lemma SearchStart(t: Tree, root: nat, cwd: nat, cwd': nat, name: string, names: seq<string>)
    requires root != 0 && cwd != 0 && name != "/"
    ensures Search(t, root, cwd, ["/"]) == root
    ensures Search(t, root, cwd, ["/", name]) == if name == "root" then root else Child(t, name, root)
    ensures Search(t, root, cwd, [name]) == if name == "root" then root else Child(t, name, cwd)
    ensures names != [] && names[0] == "/" ==> Search(t, root, cwd, names) == Search(t, root, cwd', names)
  {
    WalkStep(t, root, [name], root, 0);
    WalkStep(t, root, [name], cwd, 0);
    assert [name][..1] == [name] && [name][..0] == [];
    assert ["/", name][1..] == [name] && ["/"][1..] == [];
  }

  /** Each further name is looked up in what the names before it resolve to. */
  lemma SearchStep(t: Tree, root: nat, cwd: nat, names: seq<string>, name: string)
    requires names != []
    ensures Search(t, root, cwd, names + [name]) ==
            var dir := Search(t, root, cwd, names);
            if dir == 0 then 0 else if name == "root" then root else Child(t, name, dir)
  {
    var all := names + [name];
    assert all[..|names|] == names;
    assert all[1..] == names[1..] + [name] && all[1..][..|names| - 1] == names[1..];
  }

  lemma ComponentsSome(p: string)
    ensures Components(p) == [] <==> p == ""
  {
  }

  /** For a path with a slash, other than "/", that fits the table: if the last name is not "root" and the
      directory resolves, looking up the path is looking up basename in what dirname resolves to. */
  lemma SearchByParts(t: Tree, root: nat, cwd: nat, s: string)
    requires root != 0 && cwd != 0 && Fits(Components(Norm(s)))
    requires Norm(s) != "/" && LastSlash(Norm(s), |Norm(s)|) >= 0 && BaseOf(Norm(s)) != "root"
    requires Search(t, root, cwd, Broken(Norm(DirOf(Norm(s))))) != 0
    ensures Search(t, root, cwd, Broken(Norm(s))) ==
            Child(t, BaseOf(Norm(s)), Search(t, root, cwd, Broken(Norm(DirOf(Norm(s))))))
  {
    hide Norm;
    hide Normal;
    hide Components;
    hide Broken;
    hide JoinPath;
    hide DirOf;
    hide BaseOf;
    hide LastSlash;
    hide Search;
    hide Walk;
    hide Child;
    NormIsNormal(s);
    var p := Norm(s);
    var d, b := DirOf(p), BaseOf(p);
    Rejoin(p);
    NormIsNormal(d);
    var names := Components(d);
    assert Fits(names) by { assert forall i :: 0 <= i < |names| ==> Components(p)[i] == names[i]; }
    BrokenJoins(s);
    BrokenJoins(d);
    ComponentsSome(d);
    SearchStep(t, root, cwd, names, b);
  }
}
