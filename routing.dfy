/** Path templates of `App::route`: the `{name}` -> `(?P<name>[^/]+)` compile step and
    the anchored match that `preg_match` performs on the compiled pattern. */
module Routing {
  import opened Wrappers

  /** A compiled template is literal text and named placeholders, in order. */
  datatype Segment = Lit(text: string) | Param(name: string)

  type Template = seq<Segment>

  /** The named groups of a successful match, in template order (numeric groups are never kept). */
  type Captures = seq<(string, string)>

  /** What `[^}]+` accepts as a placeholder name. */
  predicate ValidName(n: string) {
    n != "" && '}' !in n
  }

  /** A value a placeholder may capture: what `[^/]+` accepts. */
  predicate SegmentValue(v: string) {
    v != "" && '/' !in v
  }

  /** Index of the first '}' of p at or after position from. */
  function FirstClose(p: string, from: nat): (r: Option<nat>)
    ensures r.Some? ==> from <= r.value < |p| && p[r.value] == '}'
    ensures r.Some? ==> forall k :: from <= k < r.value ==> p[k] != '}'
    ensures r.None? ==> forall k :: from <= k < |p| ==> p[k] != '}'
    decreases |p| - from
  {
    if from >= |p| then None
    else if p[from] == '}' then Some(from)
    else FirstClose(p, from + 1)
  }

  /** Adds one literal character in front of a template, merging it into a leading literal. */
  function PrependChar(c: char, t: Template): Template {
    if t != [] && t[0].Lit? then [Lit([c] + t[0].text)] + t[1..] else [Lit([c])] + t
  }

  /** The compile step: a left-to-right scan replacing each `{name}` (name non-empty and
      free of '}') by a placeholder, keeping every other character as literal text. */
  function Parse(p: string): (t: Template)
    ensures forall k :: 0 <= k < |t| && t[k].Param? ==> ValidName(t[k].name)
    decreases |p|
  {
    if p == [] then []
    else if p[0] == '{' && FirstClose(p, 1).Some? && FirstClose(p, 1).value >= 2 then
      var j := FirstClose(p, 1).value;
      [Param(p[1..j])] + Parse(p[j + 1..])
    else
      PrependChar(p[0], Parse(p[1..]))
  }

  /** The template written back as path text. */
  function Render(t: Template): string {
    if t == [] then ""
    else
      (match t[0]
       case Lit(s) => s
       case Param(n) => "{" + n + "}") + Render(t[1..])
  }

  lemma RenderPrependChar(c: char, t: Template)
    ensures Render(PrependChar(c, t)) == [c] + Render(t)
  {
    if t != [] && t[0].Lit? {
      assert PrependChar(c, t)[1..] == t[1..];
    } else {
      assert PrependChar(c, t)[1..] == t;
    }
  }

  lemma PlaceholderSplit(p: string, j: nat)
    requires 1 <= j < |p| && p[0] == '{' && p[j] == '}'
    ensures p == "{" + p[1..j] + "}" + p[j + 1..]
  {
  }

  lemma RenderCons(s: Segment, t: Template)
    ensures Render([s] + t) == (match s case Lit(x) => x case Param(n) => "{" + n + "}") + Render(t)
  {
    assert ([s] + t)[1..] == t;
  }

  lemma RenderPlaceholderCons(p: string, j: nat, t: Template)
    requires 1 <= j < |p| && p[0] == '{' && p[j] == '}' && Render(t) == p[j + 1..]
    ensures Render([Param(p[1..j])] + t) == p
  {
    RenderCons(Param(p[1..j]), t);
    PlaceholderSplit(p, j);
  }

  /** Compiling loses nothing: rendering the compiled template gives back the path. */
  lemma {:induction false} RenderParse(p: string)
    ensures Render(Parse(p)) == p
    decreases |p|
  {
    if p == [] {
    } else if p[0] == '{' && FirstClose(p, 1).Some? && FirstClose(p, 1).value >= 2 {
      var j := FirstClose(p, 1).value;
      RenderParse(p[j + 1..]);
      RenderPlaceholderCons(p, j, Parse(p[j + 1..]));
    } else {
      RenderParse(p[1..]);
      RenderPrependChar(p[0], Parse(p[1..]));
      assert p == [p[0]] + p[1..];
    }
  }

  /** The layout of the text `{n}rest`. */
  lemma PlaceholderText(n: string, rest: string)
    ensures var p := "{" + n + "}" + rest;
      |p| == |n| + 2 + |rest| && p[0] == '{' && p[|n| + 1] == '}' &&
      p[1..|n| + 1] == n && p[|n| + 2..] == rest &&
      forall k :: 1 <= k < |n| + 1 ==> p[k] == n[k - 1]
  {
  }

  /** The first '}' from position from is at j when p[j] is one and none comes before it. */
  lemma {:induction false} FirstCloseAt(p: string, from: nat, j: nat)
    requires from <= j < |p| && p[j] == '}'
    requires forall k :: from <= k < j ==> p[k] != '}'
    ensures FirstClose(p, from) == Some(j)
    decreases j - from
  {
    if from < j {
      FirstCloseAt(p, from + 1, j);
    }
  }

  /** A `{name}` at the front of the path compiles to a placeholder with exactly that name. */
  lemma ParsePlaceholder(n: string, rest: string)
    requires ValidName(n)
    ensures Parse("{" + n + "}" + rest) == [Param(n)] + Parse(rest)
  {
    var p := "{" + n + "}" + rest;
    PlaceholderText(n, rest);
    forall k | 1 <= k < |n| + 1 ensures p[k] != '}' {
      assert p[k] == n[k - 1];
    }
    FirstCloseAt(p, 1, |n| + 1);
  }

  /** A character other than `{` in front of a path is literal text: it joins the leading
      literal of the compiled rest. */
  lemma ParseLitStep(c: char, q: string, s: string, t: Template)
    requires c != '{' && Parse(q) == [Lit(s)] + t
    ensures Parse([c] + q) == [Lit([c] + s)] + t
  {
    assert ([c] + q)[1..] == q;
    assert (Parse(q))[1..] == t;
  }

  /** ... and before a placeholder, or at the end, it starts a literal of its own. */
  lemma ParseParamStep(c: char, q: string)
    requires c != '{' && (Parse(q) == [] || Parse(q)[0].Param?)
    ensures Parse([c] + q) == [Lit([c])] + Parse(q)
  {
    assert ([c] + q)[1..] == q;
  }

  /** Literal text free of `{` in front of a placeholder (or of nothing) compiles to one
      literal segment, followed by the compiled rest. */
  lemma {:induction false} ParseTextBefore(s: string, rest: string)
    requires s != "" && '{' !in s
    requires Parse(rest) == [] || Parse(rest)[0].Param?
    ensures Parse(s + rest) == [Lit(s)] + Parse(rest)
    decreases |s|
  {
    assert s + rest == [s[0]] + (s[1..] + rest);
    if |s| == 1 {
      assert s[1..] + rest == rest;
      ParseParamStep(s[0], rest);
      assert [s[0]] == s;
    } else {
      ParseTextBefore(s[1..], rest);
      ParseLitStep(s[0], s[1..] + rest, s[1..], Parse(rest));
      assert [s[0]] + s[1..] == s;
    }
  }

  /** Literal text free of `{` followed by a `{name}` compiles to that literal, then the
      placeholder, then the compiled rest: where a placeholder sits after text, `route()`
      puts a capture group. */
  lemma ParseLitThenParam(lit: string, n: string, rest: string)
    requires lit != "" && '{' !in lit && ValidName(n)
    ensures Parse(lit + "{" + n + "}" + rest) == [Lit(lit), Param(n)] + Parse(rest)
  {
    var q := "{" + n + "}" + rest;
    ParsePlaceholder(n, rest);
    ParseTextBefore(lit, q);
    AppendRegroup(lit, "{", n, "}", rest);
  }

  lemma AppendRegroup(a: string, b: string, c: string, d: string, e: string)
    ensures a + b + c + d + e == a + (b + c + d + e)
  {
  }

  lemma ParsePostTail()
    ensures Parse("/post/{postId}") == [Lit("/post/"), Param("postId")]
  {
    ParseLitThenParam("/post/", "postId", "");
    assert "/post/" + "{" + "postId" + "}" + "" == "/post/{postId}";
    assert Parse("") == [];
  }

  lemma ParseUserPrefix(tail: string)
    requires Parse(tail) == [Lit("/post/"), Param("postId")]
    ensures Parse("/user/{id}" + tail) == UserPost
  {
    ParseLitThenParam("/user/", "id", tail);
    assert "/user/" + "{" + "id" + "}" + tail == "/user/{id}" + tail;
  }

  lemma UserPostPathSplit()
    ensures "/user/{id}" + "/post/{postId}" == "/user/{id}/post/{postId}"
  {
  }

  lemma ParseUserPostPath(p: string)
    requires p == "/user/{id}/post/{postId}"
    ensures Parse(p) == UserPost
  {
    ParsePostTail();
    ParseUserPrefix("/post/{postId}");
    UserPostPathSplit();
  }

  /** `/user/{id}/post/{postId}` compiles to literal, placeholder, literal, placeholder. */
  lemma ParseUserPost()
    ensures Parse("/user/{id}/post/{postId}") == UserPost
  {
    ParseUserPostPath("/user/{id}/post/{postId}");
  }

  /** `/quiz/{page}` compiles to a literal and one placeholder. */
  lemma ParseQuiz()
    ensures Parse("/quiz/{page}") == [Lit("/quiz/"), Param("page")]
  {
    ParseLitThenParam("/quiz/", "page", "");
    assert "/quiz/" + "{" + "page" + "}" + "" == "/quiz/{page}";
    assert Parse("") == [];
  }

  /** The placeholder names of a template, in order. */
  function ParamNames(t: Template): (names: seq<string>) {
    if t == [] then []
    else (if t[0].Param? then [t[0].name] else []) + ParamNames(t[1..])
  }

  /** The concrete path obtained by putting vals, in order, in place of the placeholders. */
  function Instantiate(t: Template, vals: seq<string>): string
    requires |vals| == |ParamNames(t)|
  {
    if t == [] then ""
    else match t[0]
      case Lit(s) => s + Instantiate(t[1..], vals)
      case Param(_) => vals[0] + Instantiate(t[1..], vals[1..])
  }

  /** The anchored reading of a template: u is the whole template with each placeholder
      replaced by a non-empty slash-free value. */
  ghost predicate Fits(t: Template, u: string, vals: seq<string>) {
    && |vals| == |ParamNames(t)|
    && (forall i :: 0 <= i < |vals| ==> SegmentValue(vals[i]))
    && Instantiate(t, vals) == u
  }

  /** Length of the longest prefix of u that holds no '/'. */
  function SlashFreeSpan(u: string): (k: nat)
    ensures k <= |u|
    ensures forall i :: 0 <= i < k ==> u[i] != '/'
    ensures k < |u| ==> u[k] == '/'
  {
    if u == [] || u[0] == '/' then 0 else 1 + SlashFreeSpan(u[1..])
  }

  /** `preg_match` of the anchored compiled pattern against u: literals must match exactly,
      and each placeholder tries its longest slash-free capture first, backtracking to
      shorter ones, as PCRE does for a greedy `[^/]+`. */
  function Match(t: Template, u: string): Option<Captures>
    decreases |t|, |u| + 1
  {
    if t == [] then (if u == "" then Some([]) else None)
    else match t[0]
      case Lit(s) => if s <= u then Match(t[1..], u[|s|..]) else None
      case Param(n) => TryLengths(n, t[1..], u, SlashFreeSpan(u))
  }

  /** Tries captures of length k, k-1, ..., 1 for placeholder n followed by rest. */
  function TryLengths(n: string, rest: Template, u: string, k: nat): Option<Captures>
    requires k <= |u|
    decreases |rest| + 1, k
  {
    if k == 0 then None
    else match Match(rest, u[k..])
      case Some(c) => Some([(n, u[..k])] + c)
      case None => TryLengths(n, rest, u, k - 1)
  }

  function Names(c: Captures): seq<string> {
    seq(|c|, i requires 0 <= i < |c| => c[i].0)
  }

  function Values(c: Captures): seq<string> {
    seq(|c|, i requires 0 <= i < |c| => c[i].1)
  }

  lemma NamesValuesCons(p: (string, string), c: Captures)
    ensures Names([p] + c) == [p.0] + Names(c)
    ensures Values([p] + c) == [p.1] + Values(c)
  {
  }

  /** A match captures exactly the template's placeholders, and the captured values
      rebuild the whole URI (no partial matches). */
  lemma {:induction false} MatchSound(t: Template, u: string)
    requires Match(t, u).Some?
    ensures Names(Match(t, u).value) == ParamNames(t)
    ensures Fits(t, u, Values(Match(t, u).value))
    decreases |t|, |u| + 1
  {
    if t == [] {
    } else {
      match t[0]
      case Lit(s) =>
        MatchSound(t[1..], u[|s|..]);
        assert u == s + u[|s|..];
      case Param(n) =>
        TryLengthsSound(n, t[1..], u, SlashFreeSpan(u));
    }
  }

  lemma {:induction false} TryLengthsSound(n: string, rest: Template, u: string, k: nat)
    requires k <= |u| && k <= SlashFreeSpan(u)
    requires TryLengths(n, rest, u, k).Some?
    ensures Names(TryLengths(n, rest, u, k).value) == [n] + ParamNames(rest)
    ensures Fits([Param(n)] + rest, u, Values(TryLengths(n, rest, u, k).value))
    decreases |rest| + 1, k
  {
    var t := [Param(n)] + rest;
    assert t[1..] == rest;
    match Match(rest, u[k..])
    case Some(c) =>
      MatchSound(rest, u[k..]);
      NamesValuesCons((n, u[..k]), c);
      var vals := [u[..k]] + Values(c);
      assert vals[1..] == Values(c);
      assert u == u[..k] + u[k..];
      assert SegmentValue(u[..k]);
      assert Instantiate(t, vals) == u;
    case None =>
      TryLengthsSound(n, rest, u, k - 1);
  }

  /** Every anchored reading of the URI is found: if some values fit, the match succeeds. */
  lemma {:induction false} MatchComplete(t: Template, u: string, vals: seq<string>)
    requires Fits(t, u, vals)
    ensures Match(t, u).Some?
    decreases |t|, |u| + 1
  {
    if t == [] {
    } else {
      match t[0]
      case Lit(s) =>
        assert u == s + Instantiate(t[1..], vals);
        assert u[|s|..] == Instantiate(t[1..], vals);
        MatchComplete(t[1..], u[|s|..], vals);
      case Param(n) =>
        var v := vals[0];
        var tail := Instantiate(t[1..], vals[1..]);
        assert u == v + tail;
        assert SegmentValue(v);
        forall i | 0 <= i < |v| ensures u[i] != '/' {
          assert u[i] == v[i];
        }
        assert |v| <= SlashFreeSpan(u);
        assert u[|v|..] == tail;
        assert Fits(t[1..], tail, vals[1..]);
        MatchComplete(t[1..], tail, vals[1..]);
        TryLengthsFinds(n, t[1..], u, SlashFreeSpan(u), |v|);
    }
  }

  lemma {:induction false} TryLengthsFinds(n: string, rest: Template, u: string, k: nat, l: nat)
    requires 1 <= l <= k <= |u|
    requires Match(rest, u[l..]).Some?
    ensures TryLengths(n, rest, u, k).Some?
    decreases k
  {
    if Match(rest, u[k..]).None? {
      TryLengthsFinds(n, rest, u, k - 1, l);
    }
  }

  /** The template matches the URI exactly when the URI is one of its anchored readings. */
  lemma MatchIff(t: Template, u: string)
    ensures Match(t, u).Some? <==> exists vals :: Fits(t, u, vals)
  {
    if Match(t, u).Some? {
      MatchSound(t, u);
    }
    if exists vals :: Fits(t, u, vals) {
      var vals :| Fits(t, u, vals);
      MatchComplete(t, u, vals);
    }
  }

  /** Every placeholder is followed by the end of the template or by literal text starting
      with '/': the shape of templates such as `/user/{id}/post/{postId}`. */
  ghost predicate SlashDelimited(t: Template) {
    forall k :: 0 <= k < |t| && t[k].Param? ==>
      k + 1 == |t| || (t[k + 1].Lit? && t[k + 1].text != "" && t[k + 1].text[0] == '/')
  }

  lemma {:induction false} SlashFreeSpanOf(a: string, rest: string)
    requires '/' !in a
    requires rest == "" || rest[0] == '/'
    ensures SlashFreeSpan(a + rest) == |a|
    decreases |a|
  {
    if a != [] {
      assert (a + rest)[1..] == a[1..] + rest;
      SlashFreeSpanOf(a[1..], rest);
    }
  }

  lemma {:induction false} InstantiateStart(t: Template, vals: seq<string>)
    requires t != [] && t[0].Lit? && t[0].text != "" && t[0].text[0] == '/'
    requires |vals| == |ParamNames(t)|
    ensures Instantiate(t, vals) != "" && Instantiate(t, vals)[0] == '/'
  {
  }

  /** In a slash-delimited template each placeholder captures one whole path segment, so
      the values that fit a URI are unique. */
  lemma {:induction false} FitsUnique(t: Template, u: string, v1: seq<string>, v2: seq<string>)
    requires SlashDelimited(t) && Fits(t, u, v1) && Fits(t, u, v2)
    ensures v1 == v2
    decreases |t|
  {
    if t != [] {
      assert SlashDelimited(t[1..]) by {
        forall k | 0 <= k < |t[1..]| && t[1..][k].Param?
          ensures k + 1 == |t[1..]| || (t[1..][k + 1].Lit? && t[1..][k + 1].text != "" && t[1..][k + 1].text[0] == '/')
        {
          assert t[1..][k] == t[k + 1];
        }
      }
      match t[0]
      case Lit(s) =>
        assert Instantiate(t[1..], v1) == u[|s|..] == Instantiate(t[1..], v2);
        FitsUnique(t[1..], u[|s|..], v1, v2);
      case Param(_) =>
        var r1 := Instantiate(t[1..], v1[1..]);
        var r2 := Instantiate(t[1..], v2[1..]);
        if t[1..] != [] {
          InstantiateStart(t[1..], v1[1..]);
          InstantiateStart(t[1..], v2[1..]);
        }
        assert SegmentValue(v1[0]) && SegmentValue(v2[0]);
        SlashFreeSpanOf(v1[0], r1);
        SlashFreeSpanOf(v2[0], r2);
        assert u == v1[0] + r1 == v2[0] + r2;
        assert v1[0] == u[..|v1[0]|] && v2[0] == u[..|v2[0]|];
        assert r1 == u[|v1[0]|..] == r2;
        FitsUnique(t[1..], r1, v1[1..], v2[1..]);
        assert v1 == [v1[0]] + v1[1..];
        assert v2 == [v2[0]] + v2[1..];
    }
  }

  /** For a slash-delimited template, a URI that fits vals matches with exactly vals,
      bound to the placeholder names in order. */
  lemma MatchDelimited(t: Template, u: string, vals: seq<string>)
    requires SlashDelimited(t) && Fits(t, u, vals)
    ensures Match(t, u).Some?
    ensures Names(Match(t, u).value) == ParamNames(t) && Values(Match(t, u).value) == vals
  {
    MatchComplete(t, u, vals);
    MatchSound(t, u);
    FitsUnique(t, u, Values(Match(t, u).value), vals);
  }

  /** The template of the route `/user/{id}/post/{postId}`, as `route()` compiles it. */
  const UserPost: Template := [Lit("/user/"), Param("id"), Lit("/post/"), Param("postId")]

  lemma UserPostNames()
    ensures ParamNames(UserPost) == ["id", "postId"]
  {
    var t1 := [Param("id"), Lit("/post/"), Param("postId")];
    var t2 := [Lit("/post/"), Param("postId")];
    var t3 := [Param("postId")];
    assert UserPost[1..] == t1 && t1[1..] == t2 && t2[1..] == t3 && t3[1..] == [];
    assert ParamNames(t3) == ["postId"];
    assert ParamNames(t2) == ["postId"];
  }

  lemma UserPostShape(v: seq<string>)
    requires |v| == 2
    ensures ParamNames(UserPost) == ["id", "postId"]
    ensures Instantiate(UserPost, v) == "/user/" + v[0] + "/post/" + v[1]
  {
    UserPostNames();
    var t1 := [Param("id"), Lit("/post/"), Param("postId")];
    var t2 := [Lit("/post/"), Param("postId")];
    var t3 := [Param("postId")];
    assert UserPost[1..] == t1 && t1[1..] == t2 && t2[1..] == t3 && t3[1..] == [];
    assert v[1..] == [v[1]] && v[1..][1..] == [];
    assert Instantiate(t3, [v[1]]) == v[1];
    assert Instantiate(t2, [v[1]]) == "/post/" + v[1];
    assert ParamNames(t1) == ["id", "postId"];
    assert Instantiate(t1, v) == v[0] + "/post/" + v[1];
  }

  /** Captures are determined by their names and values. */
  lemma CapturesOf(c: Captures, names: seq<string>, vals: seq<string>)
    requires Names(c) == names && Values(c) == vals
    ensures |names| == |vals| == |c|
    ensures forall i :: 0 <= i < |c| ==> c[i] == (names[i], vals[i])
  {
    assert |Names(c)| == |c| && |Values(c)| == |c|;
    forall i | 0 <= i < |c| ensures c[i] == (names[i], vals[i]) {
      assert Names(c)[i] == c[i].0 && Values(c)[i] == c[i].1;
    }
  }

  lemma UserPostText()
    ensures "/user/" + "42" + "/post/" + "7" == "/user/42/post/7"
  {
  }

  lemma UserPostFits()
    ensures SlashDelimited(UserPost) && Fits(UserPost, "/user/42/post/7", ["42", "7"])
  {
    UserPostShape(["42", "7"]);
    UserPostText();
    assert ["42", "7"][0] == "42" && ["42", "7"][1] == "7";
  }

  /** `/user/42/post/7` binds id to "42" and postId to "7". */
  lemma UserPostMatches()
    ensures Match(UserPost, "/user/42/post/7") == Some([("id", "42"), ("postId", "7")])
  {
    UserPostFits();
    MatchDelimited(UserPost, "/user/42/post/7", ["42", "7"]);
    UserPostShape(["42", "7"]);
    var c := Match(UserPost, "/user/42/post/7").value;
    CapturesOf(c, ["id", "postId"], ["42", "7"]);
    assert c == [c[0], c[1]];
  }

  /** `/user/42/post` is too short for the template: no partial match. */
  lemma UserPostRejectsPrefix()
    ensures Match(UserPost, "/user/42/post").None?
  {
    if Match(UserPost, "/user/42/post").Some? {
      MatchSound(UserPost, "/user/42/post");
      var v := Values(Match(UserPost, "/user/42/post").value);
      UserPostShape(v);
      assert false;
    }
  }

  /** The first capture bound to name, as `$params[name]` reads it. */
  function Lookup(c: Captures, name: string): (r: Option<string>)
    ensures r.Some? <==> name in Names(c)
    ensures r.Some? ==> exists i :: 0 <= i < |c| && c[i] == (name, r.value)
  {
    if c == [] then None
    else if c[0].0 == name then
      assert Names(c)[0] == name;
      Some(c[0].1)
    else
      assert Names(c) == [c[0].0] + Names(c[1..]);
      Lookup(c[1..], name)
  }
}
