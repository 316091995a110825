/** The path list of a map-reduce request as text: Utils::split with the rules of
    std::getline, and the loop with which the benchmark client joins its paths.
  */
module Text {

  /** Position of the first delimiter, or the length if there is none. */
  function Find(s: string, d: char): (i: nat)
    ensures i <= |s| && d !in s[..i] && (i < |s| ==> s[i] == d)
  {
    if s == "" || s[0] == d then 0 else
      assert s[..1 + Find(s[1..], d)] == [s[0]] + s[1..][..Find(s[1..], d)];
      1 + Find(s[1..], d)
  }

  /** What repeated getline yields: one token per delimiter, and a last token
      for the rest only if the rest is not empty. */
  function Tokens(s: string, d: char): seq<string>
    decreases |s|
  {
    if s == "" then []
    else
      var i := Find(s, d);
      if i < |s| then [s[..i]] + Tokens(s[i + 1..], d) else [s]
  }

  function Join(ps: seq<string>, d: char): string {
    if ps == [] then "" else if |ps| == 1 then ps[0] else ps[0] + [d] + Join(ps[1..], d)
  }

  lemma FindIs(s: string, d: char, i: nat)
    requires i <= |s| && d !in s[..i] && (i < |s| ==> s[i] == d)
    ensures Find(s, d) == i
  {
  }

  lemma FirstToken(s: string, d: char, i: nat)
    requires s != "" && i <= |s| && d !in s[..i] && (i < |s| ==> s[i] == d)
    ensures Tokens(s, d) == [s[..i]] + if i < |s| then Tokens(s[i + 1..], d) else []
  {
    FindIs(s, d, i);
    assert s[..|s|] == s;
  }

  /** One turn of the loop below. */
  lemma NextToken(str: string, pos: nat, end: nat, next: nat, d: char)
    requires pos < |str| && pos <= end <= |str| && d !in str[pos..end]
    requires if end < |str| then str[end] == d && next == end + 1 else next == end
    ensures Tokens(str[pos..], d) == [str[pos..end]] + Tokens(str[next..], d)
  {
    var s := str[pos..];
    assert s[..end - pos] == str[pos..end];
    FirstToken(s, d, end - pos);
    if end < |str| {
      assert s[end - pos + 1..] == str[next..];
    }
  }

  method Split(str: string, delim: char) returns (vecStr: seq<string>)
    ensures vecStr == Tokens(str, delim)
  {
    vecStr := [];
    var pos := 0;
    ghost var rest := Tokens(str, delim);
    while pos < |str|
      invariant 0 <= pos <= |str|
      invariant rest == Tokens(str[pos..], delim)
      invariant vecStr + rest == Tokens(str, delim)
    {
      var end := GetLine(str, pos, delim);
      var next := if end < |str| then end + 1 else end;
      NextToken(str, pos, end, next, delim);
      vecStr := vecStr + [str[pos..end]];
      rest := rest[1..];
      pos := next;
    }
  }

  /** std::getline: where the token that starts at `pos` ends. */
  method GetLine(str: string, pos: nat, delim: char) returns (end: nat)
    requires pos <= |str|
    ensures pos <= end <= |str| && delim !in str[pos..end] && (end < |str| ==> str[end] == delim)
  {
    end := pos;
    while end < |str| && str[end] != delim
      invariant pos <= end <= |str|
      invariant delim !in str[pos..end]
    {
      end := end + 1;
    }
  }

  method JoinPaths(vecPath: seq<string>) returns (ss: string)
    ensures ss == Join(vecPath, ' ')
  {
    ss := "";
    for i := 0 to |vecPath|
      invariant ss + Join(vecPath[i..], ' ') == Join(vecPath, ' ')
      invariant i == |vecPath| ==> vecPath == []
    {
      assert vecPath[i..][1..] == vecPath[i + 1..];
      if i == |vecPath| - 1 {
        ss := ss + vecPath[i];
        break;
      }
      ss := ss + vecPath[i] + " ";
    }
  }

  lemma TokensOfJoined(p: string, rest: string, d: char)
    requires d !in p
    ensures Tokens(p + [d] + rest, d) == [p] + Tokens(rest, d)
  {
    var text := p + [d] + rest;
    assert text[..|p|] == p && text[|p| + 1..] == rest;
    FirstToken(text, d, |p|);
  }

  lemma JoinCons(p: string, ps: seq<string>, d: char)
    ensures Join([p] + ps, d) == if ps == [] then p else p + [d] + Join(ps, d)
  {
  }

  /** Splitting undoes joining, for paths free of the delimiter, exactly when
      the list is empty or its last path is not empty. */
  lemma {:induction false} SplitUndoesJoin(ps: seq<string>, d: char)
    requires forall p <- ps :: d !in p
    ensures Tokens(Join(ps, d), d) == ps <==> (ps == [] || ps[|ps| - 1] != "")
  {
    if |ps| == 1 {
      var p := ps[0];
      assert p in ps && p[..|p|] == p;
      FindIs(p, d, |p|);
    } else if |ps| > 1 {
      var p, rest := ps[0], ps[1..];
      assert p in ps && ps == [p] + rest;
      TokensOfJoined(p, Join(rest, d), d);
      SplitUndoesJoin(rest, d);
      assert ([p] + Tokens(Join(rest, d), d))[1..] == Tokens(Join(rest, d), d);
    }
  }

  /** A text without its last character if that is the delimiter. */
  function Trimmed(s: string, d: char): string {
    if s != "" && s[|s| - 1] == d then s[..|s| - 1] else s
  }

  lemma TrimTail(tok: string, rest: string, d: char)
    ensures Trimmed(tok + [d] + rest, d) == if rest == "" then tok else tok + [d] + Trimmed(rest, d)
  {
  }

  /** Joining undoes splitting on every text, up to one trailing delimiter. */
  lemma {:induction false} JoinUndoesSplit(s: string, d: char)
    ensures Join(Tokens(s, d), d) == Trimmed(s, d)
    decreases |s|
  {
    var i := Find(s, d);
    if i < |s| {
      var tok, rest := s[..i], s[i + 1..];
      assert s == tok + [d] + rest;
      JoinUndoesSplit(rest, d);
      JoinCons(tok, Tokens(rest, d), d);
      TrimTail(tok, rest, d);
    }
  }
}
