/** The string helpers `indent` and `zapi`. Lines are separated by PHP_EOL, "\n" on Unix. */
module TextUtils {

  /** `explode("\n", s)`: the pieces between newlines; always at least one. */
  function Split(s: string): (lines: seq<string>)
    ensures |lines| >= 1
    ensures forall i :: 0 <= i < |lines| ==> '\n' !in lines[i]
  {
    if s == [] then [""]
    else if s[0] == '\n' then [""] + Split(s[1..])
    else
      var rest := Split(s[1..]);
      [[s[0]] + rest[0]] + rest[1..]
  }

  /** `implode("\n", lines)`. */
  function Join(lines: seq<string>): string {
    if lines == [] then ""
    else if |lines| == 1 then lines[0]
    else lines[0] + "\n" + Join(lines[1..])
  }

  /** Joining the pieces gives back the text. */
  lemma {:induction false} JoinSplit(s: string)
    ensures Join(Split(s)) == s
  {
    if s == [] {
    } else if s[0] == '\n' {
      JoinSplit(s[1..]);
      assert ([""] + Split(s[1..]))[1..] == Split(s[1..]);
      assert s == [s[0]] + s[1..];
    } else {
      var rest := Split(s[1..]);
      JoinSplit(s[1..]);
      var lines := [[s[0]] + rest[0]] + rest[1..];
      assert lines[1..] == rest[1..];
      if |rest| == 1 {
        assert s == [s[0]] + rest[0];
      } else {
        assert Join(rest) == rest[0] + "\n" + Join(rest[1..]);
        assert s == [s[0]] + s[1..];
      }
    }
  }

  lemma SplitNewline(a: string, b: string)
    requires '\n' !in a
    ensures Split(a + "\n" + b) == [a] + Split(b)
    decreases |a|
  {
    if a == [] {
      assert a + "\n" + b == "\n" + b;
      assert ("\n" + b)[1..] == b;
    } else {
      assert (a + "\n" + b)[1..] == a[1..] + "\n" + b;
      SplitNewline(a[1..], b);
      assert [a[0]] + a[1..] == a;
    }
  }

  lemma SplitFree(a: string)
    requires '\n' !in a
    ensures Split(a) == [a]
    decreases |a|
  {
    if a != [] {
      SplitFree(a[1..]);
      assert [a[0]] + a[1..] == a;
    }
  }

  /** Splitting joined newline-free lines gives back the lines. */
  lemma {:induction false} SplitJoin(lines: seq<string>)
    requires |lines| >= 1
    requires forall i :: 0 <= i < |lines| ==> '\n' !in lines[i]
    ensures Split(Join(lines)) == lines
  {
    if |lines| == 1 {
      SplitFree(lines[0]);
    } else {
      SplitJoin(lines[1..]);
      SplitNewline(lines[0], Join(lines[1..]));
      assert [lines[0]] + lines[1..] == lines;
    }
  }

  /** n spaces (none when n <= 0). */
  function Spaces(n: int): (r: string)
    ensures |r| == (if n <= 0 then 0 else n)
    ensures forall i :: 0 <= i < |r| ==> r[i] == ' '
    ensures '\n' !in r
    decreases n
  {
    if n <= 0 then "" else Spaces(n - 1) + " "
  }

  /** `indent(s, n)`: every line of s preceded by n spaces, the number of lines unchanged;
      with n <= 0 the text comes back as it was. */
  method Indent(s: string, n: int := 4) returns (r: string)
    ensures |Split(r)| == |Split(s)|
    ensures forall i :: 0 <= i < |Split(s)| ==> Split(r)[i] == Spaces(n) + Split(s)[i]
    ensures n <= 0 ==> r == s
  {
    var lines := Split(s);
    var newlines: seq<string> := [];
    var sp := "";
    var i := 0;
    while i < n
      invariant 0 <= i && (n > 0 ==> i <= n) && (n <= 0 ==> i == 0)
      invariant sp == Spaces(i)
    {
      sp := sp + " ";
      i := i + 1;
    }
    assert sp == Spaces(n);
    for k := 0 to |lines|
      invariant |newlines| == k
      invariant forall j :: 0 <= j < k ==> newlines[j] == sp + lines[j]
    {
      newlines := newlines + [sp + lines[k]];
    }
    r := Join(newlines);
    SplitJoin(newlines);
    if n <= 0 {
      assert sp == "";
      forall j | 0 <= j < |lines| ensures newlines[j] == lines[j] {
        assert newlines[j] == sp + lines[j];
      }
      assert newlines == lines;
      JoinSplit(s);
    }
  }

  /** s with every trailing '/' removed. */
  function StripTrailingSlashes(p: string): (r: string)
    ensures r <= p
    ensures forall i :: |r| <= i < |p| ==> p[i] == '/'
    ensures r == [] || r[|r| - 1] != '/'
  {
    if p != [] && p[|p| - 1] == '/' then StripTrailingSlashes(p[..|p| - 1]) else p
  }

  /** The text after the last '/'. */
  function AfterLastSlash(p: string): (r: string)
    ensures '/' !in r
    ensures |r| <= |p| && r == p[|p| - |r|..]
    ensures |r| < |p| ==> p[|p| - |r| - 1] == '/'
  {
    if p == [] || p[|p| - 1] == '/' then ""
    else AfterLastSlash(p[..|p| - 1]) + [p[|p| - 1]]
  }

  /** `basename(p)` for '/'-separated paths: the last component, trailing slashes ignored. */
  function Basename(p: string): string {
    AfterLastSlash(StripTrailingSlashes(p))
  }

  /** The suffix step of `basename(b, ".php")`: `.php` is removed when it ends b and is not
      the whole of it. */
  function StripPhp(b: string): (r: string)
    ensures |b| > 4 && b[|b| - 4..] == ".php" ==> r + ".php" == b
    ensures !(|b| > 4 && b[|b| - 4..] == ".php") ==> r == b
  {
    if |b| > 4 && b[|b| - 4..] == ".php" then
      assert b[..|b| - 4] + ".php" == b;
      b[..|b| - 4]
    else
      b
  }

  /** `zapi(f)`, that is `basename(f, ".php")`: a slash-free name, the last component of f
      with a trailing `.php` removed. */
  function Zapi(f: string): (r: string)
    ensures '/' !in r
    ensures var b := Basename(f);
      if |b| > 4 && b[|b| - 4..] == ".php" then r + ".php" == b else r == b
  {
    var b := Basename(f);
    var r := StripPhp(b);
    assert r <= b;
    r
  }

  lemma {:induction false} AfterLastSlashOf(a: string, x: string)
    requires '/' !in x
    ensures AfterLastSlash(a + "/" + x) == x
    decreases |x|
  {
    var p := a + "/" + x;
    if x != [] {
      assert p[..|p| - 1] == a + "/" + x[..|x| - 1];
      assert p[|p| - 1] == x[|x| - 1];
      AfterLastSlashOf(a, x[..|x| - 1]);
      assert x[..|x| - 1] + [x[|x| - 1]] == x;
    }
  }

  lemma ScriptNameFree(name: string)
    requires '/' !in name
    ensures '/' !in name + ".php"
  {
    var x := name + ".php";
    forall i | 0 <= i < |x| ensures x[i] != '/' {
      if i < |name| { assert x[i] == name[i]; } else { assert x[i] == ".php"[i - |name|]; }
    }
  }

  lemma BasenameOfScript(dir: string, name: string)
    requires '/' !in name
    ensures Basename(dir + "/" + name + ".php") == name + ".php"
  {
    var f := dir + "/" + name + ".php";
    var x := name + ".php";
    assert f == dir + "/" + x;
    assert f[|f| - 1] == 'p';
    assert StripTrailingSlashes(f) == f;
    ScriptNameFree(name);
    AfterLastSlashOf(dir, x);
  }

  /** The name of a script file comes back from its path. */
  lemma ZapiOfScript(dir: string, name: string)
    requires name != "" && '/' !in name
    ensures Zapi(dir + "/" + name + ".php") == name
  {
    BasenameOfScript(dir, name);
    var b := name + ".php";
    assert |b| > 4 && b[|b| - 4..] == ".php";
    var r := Zapi(dir + "/" + name + ".php");
    assert r + ".php" == b;
    assert r == (r + ".php")[..|r|] == b[..|name|] == name;
  }
}
