/** The redirect target the Login and Register pages derive from the URL's
    query string, and the navigation their effect performs once a user is
    signed in. */
module LocationSearch {
  import opened Common
  import opened JsString

  /** A path to navigate to, or `undefined` (a query string with no `=`). */
  datatype Redirect = Path(path: string) | Undefined

  const Home: string := "/"

  /** `location.search ? location.search.split("=")[1] : "/"`: an empty query
      string gives "/", otherwise the second `=`-separated piece, which is
      undefined when there is no `=`. */
  function RedirectFrom(search: string): (r: Redirect)
    ensures search == "" ==> r == Path(Home)
    ensures search != "" ==> (r.Path? <==> '=' in search)
    ensures r.Path? ==> '=' !in r.path
  {
    SplitHasSecondPieceIff(search, '=');
    SplitPiecesHaveNoSeparator(search, '=');
    assert '=' !in Home;
    if search == "" then Path(Home)
    else
      var parts := Split(search, '=');
      if |parts| >= 2 then Path(parts[1]) else Undefined
  }

  /** A non-empty query string without `=` yields undefined. */
  lemma RedirectWithoutEquals(search: string)
    requires search != "" && '=' !in search
    ensures RedirectFrom(search) == Undefined
  {
    SplitHasSecondPieceIff(search, '=');
  }

  /** With its first `=` at position `i`, the query string redirects to the
      text after that `=` up to the next `=` or the end. */
  lemma RedirectIsSecondSegment(search: string, i: nat)
    requires i < |search| && search[i] == '=' && '=' !in search[..i]
    ensures RedirectFrom(search).Path?
    ensures var p := RedirectFrom(search).path; var tail := search[i + 1..];
      && StartsWith(tail, p)
      && '=' !in p
      && (|p| < |tail| ==> tail[|p|] == '=')
  {
    var parts := Split(search, '=');
    SplitAtFirstSeparator(search, '=');
    var p0 := parts[0];
    assert forall k :: 0 <= k < i ==> search[..i][k] == search[k];
    assert forall k :: 0 <= k < |p0| ==> p0[k] == search[..|p0|][k];
    assert |p0| == i;
    assert parts[1] == Split(search[i + 1..], '=')[0];
    SplitAtFirstSeparator(search[i + 1..], '=');
  }

  /** One step of `split`, for a string with a known first character; used by
      the two worked examples below, which illustrate `RedirectIsSecondSegment`
      on concrete query strings. */
  lemma SplitStep(c: char, t: string)
    ensures c == '=' ==> Split([c] + t, '=') == [""] + Split(t, '=')
    ensures c != '=' ==>
      Split([c] + t, '=') == [[c] + Split(t, '=')[0]] + Split(t, '=')[1..]
  {
    assert ([c] + t)[1..] == t;
  }

  /** Example: a single `key=value` pair redirects to its value. */
  lemma RedirectSinglePair()
    ensures RedirectFrom("?r=/a") == Path("/a")
  {
    assert "a" == ['a'] + "";
    SplitStep('a', "");
    assert ['a'] + "" == "a";
    assert Split("a", '=') == ["a"];
    assert "/a" == ['/'] + "a";
    SplitStep('/', "a");
    assert ['/'] + "a" == "/a";
    assert Split("/a", '=') == ["/a"];
    assert "=/a" == ['='] + "/a";
    SplitStep('=', "/a");
    assert Split("=/a", '=') == ["", "/a"];
    assert "r=/a" == ['r'] + "=/a";
    SplitStep('r', "=/a");
    assert ['r'] + "" == "r";
    assert Split("r=/a", '=') == ["r", "/a"];
    assert "?r=/a" == ['?'] + "r=/a";
    SplitStep('?', "r=/a");
    assert ['?'] + "r" == "?r";
    assert Split("?r=/a", '=') == ["?r", "/a"];
  }

  /** Example: a value that itself contains `=` is cut at that `=`. */
  lemma RedirectValueWithEquals()
    ensures RedirectFrom("?r=a=b") == Path("a")
  {
    assert "b" == ['b'] + "";
    SplitStep('b', "");
    assert ['b'] + "" == "b";
    assert Split("b", '=') == ["b"];
    assert "=b" == ['='] + "b";
    SplitStep('=', "b");
    assert Split("=b", '=') == ["", "b"];
    assert "a=b" == ['a'] + "=b";
    SplitStep('a', "=b");
    assert ['a'] + "" == "a";
    assert Split("a=b", '=') == ["a", "b"];
    assert "=a=b" == ['='] + "a=b";
    SplitStep('=', "a=b");
    assert Split("=a=b", '=') == ["", "a", "b"];
    assert "r=a=b" == ['r'] + "=a=b";
    SplitStep('r', "=a=b");
    assert ['r'] + "" == "r";
    assert Split("r=a=b", '=') == ["r", "a", "b"];
    assert "?r=a=b" == ['?'] + "r=a=b";
    SplitStep('?', "r=a=b");
    assert ['?'] + "r" == "?r";
    assert Split("?r=a=b", '=') == ["?r", "a", "b"];
  }

  /** What the page's effect does with the current user. */
  datatype Navigation = Stay | NavigateTo(target: Redirect)

  /** `useEffect(() => { if (user) navigate(redirect) })`: once a user is
      present the page navigates to the redirect; until then it stays. */
  function AfterSignIn<U>(user: Option<U>, search: string): (n: Navigation)
    ensures n.NavigateTo? <==> user.Some?
    ensures n.NavigateTo? ==> n.target == RedirectFrom(search)
  {
    if user.Some? then NavigateTo(RedirectFrom(search)) else Stay
  }
}
