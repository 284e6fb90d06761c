/**
 The listening-port reports of network_and_security.c: each output line of ss or
 netstat is cut into tokens at spaces, one token is selected, the digits after its last
 separator are the port, and each port in range is reported once.

 A line is one chunk returned by fgets, and port numbers fit an int.
 */
module PortReport {
  import opened Decimal
  import opened Options

  // ----- one line

  function TokenLength(s: string): (n: nat)
    ensures n <= |s|
    ensures forall k :: 0 <= k < n ==> s[k] != ' '
    ensures n < |s| ==> s[n] == ' '
  {
    if s == "" || s[0] == ' ' then 0 else 1 + TokenLength(s[1..])
  }

  /** The successive results of strtok(line, " "): the maximal runs without a space. */
  function Tokens(s: string): seq<string>
    decreases |s|
  {
    if s == "" then []
    else if s[0] == ' ' then Tokens(s[1..])
    else [s[..TokenLength(s)]] + Tokens(s[TokenLength(s)..])
  }

  /** strstr(line, text) != NULL */
  predicate Contains(s: string, text: string)
  {
    text <= s || (s != "" && Contains(s[1..], text))
  }

  /** strrchr: the last position of `c`. */
  function LastIndex(s: string, c: char): Option<nat>
  {
    if s == "" then None else if s[|s| - 1] == c then Some(|s| - 1) else LastIndex(s[..|s| - 1], c)
  }

  /** The port in a token: what atoi reads after the last separator, if it is in range. */
  function PortAfter(token: string, separator: char): Option<int>
  {
    match LastIndex(token, separator)
    case None => None
    case Some(i) =>
      if i + 1 >= |token| then None
      else
        var port := AtoI(token[i + 1..]);
        if 0 < port < 65536 then Some(port) else None
  }

  function FirstWith(tokens: seq<string>, c: char): Option<string>
  {
    if tokens == [] then None else if c in tokens[0] then Some(tokens[0]) else FirstWith(tokens[1..], c)
  }

  /** A line of ss: its first token with a colon, unless it is the heading. */
  function UbuntuPort(line: string): Option<int>
  {
    if Contains(line, "Local") then None
    else match FirstWith(Tokens(line), ':') case None => None case Some(token) => PortAfter(token, ':')
  }

  /** A line of netstat: its fourth token. */
  function QnxPort(line: string): Option<int>
  {
    if |Tokens(line)| < 4 then None else PortAfter(Tokens(line)[3], '.')
  }

  // ----- what a line selects, in terms of its characters

  ghost predicate OccursAt(s: string, text: string, i: nat)
  {
    i + |text| <= |s| && s[i..i + |text|] == text
  }

  /** strstr finds `text` exactly if it stands somewhere in `s`. */
  lemma {:induction false} ContainsMeaning(s: string, text: string)
    ensures Contains(s, text) <==> exists i: nat :: OccursAt(s, text, i)
    decreases |s|
  {
    if text <= s {
      assert OccursAt(s, text, 0);
    } else if s != "" {
      ContainsMeaning(s[1..], text);
      forall i: nat
        ensures OccursAt(s[1..], text, i) <==> OccursAt(s, text, i + 1)
      {
        if i + |text| <= |s| - 1 {
          assert s[1..][i..i + |text|] == s[i + 1..i + 1 + |text|];
        }
      }
      if i: nat :| OccursAt(s, text, i) {
        assert i > 0 && OccursAt(s[1..], text, i - 1);
      }
    }
  }

  /** `i` is the place of the last separator, and a number of value `p` follows it. */
  ghost predicate SelectsAt(token: string, separator: char, i: nat, p: int)
  {
    && i < |token| && token[i] == separator && separator !in token[i + 1..]
    && StartsWithNumber(token[i + 1..], p)
  }

  /** The last separator of the token stands before a number from 1 to 65535, and `p` is that number. */
  ghost predicate Selects(token: string, separator: char, p: int)
  {
    0 < p < 65536 && exists i: nat :: SelectsAt(token, separator, i, p)
  }

  lemma {:induction false} LastIndexMeaning(s: string, c: char)
    ensures match LastIndex(s, c)
      case None => c !in s
      case Some(i) => i < |s| && s[i] == c && c !in s[i + 1..]
    decreases |s|
  {
    if s != "" && s[|s| - 1] != c {
      LastIndexMeaning(s[..|s| - 1], c);
      if LastIndex(s, c).Some? {
        var i := LastIndex(s, c).value;
        assert s[i + 1..] == s[..|s| - 1][i + 1..] + [s[|s| - 1]];
      }
    }
  }

  lemma NothingDenoted()
    ensures forall z, rest :: !Denotes("", z, rest)
  {
  }

  lemma LastIndexUnique(s: string, c: char, i: nat, j: nat)
    requires i < |s| && s[i] == c && c !in s[i + 1..]
    requires j < |s| && s[j] == c && c !in s[j + 1..]
    ensures i == j
  {
  }

  /** A token yields a port exactly if it selects it; so it yields none without a separator, a number or the range. */
  lemma PortAfterMeaning(token: string, separator: char, p: int)
    ensures PortAfter(token, separator) == Some(p) <==> Selects(token, separator, p)
  {
    LastIndexMeaning(token, separator);
    hide LastIndex, Denotes, AtoI;
    if LastIndex(token, separator).Some? {
      var i := LastIndex(token, separator).value;
      AtoIMeaning(token[i + 1..]);
      NothingDenoted();
      if PortAfter(token, separator) == Some(p) {
        assert SelectsAt(token, separator, i, p);
      }
      if j: nat :| SelectsAt(token, separator, j, p) {
        LastIndexUnique(token, separator, i, j);
      }
    }
  }

  /** `line[a..b]` is a maximal run without spaces. */
  ghost predicate Run(line: string, a: nat, b: nat)
  {
    && a < b <= |line| && ' ' !in line[a..b]
    && (a > 0 ==> line[a - 1] == ' ') && (b < |line| ==> line[b] == ' ')
  }

  /** How many runs start before `a`. */
  ghost function RunsBefore(line: string, a: nat): nat
    requires a <= |line|
  {
    if a == 0 then 0
    else RunsBefore(line, a - 1) + if line[a - 1] != ' ' && (a == 1 || line[a - 2] == ' ') then 1 else 0
  }

  /** `pos` is not inside a run. */
  ghost predicate Between(line: string, pos: nat)
  {
    pos <= |line| && (0 < pos < |line| ==> line[pos - 1] == ' ' || line[pos] == ' ')
  }

  lemma {:induction false} RunCounted(line: string, a: nat, b: nat, k: nat)
    requires Run(line, a, b) && a < k <= b
    ensures RunsBefore(line, k) == RunsBefore(line, a) + 1
    decreases k
  {
    assert line[k - 1] == line[a..b][k - 1 - a];
    if k > a + 1 {
      assert line[k - 2] == line[a..b][k - 2 - a];
      RunCounted(line, a, b, k - 1);
    }
  }

  lemma FirstRun(line: string, pos: nat) returns (next: nat)
    requires Between(line, pos) && pos < |line| && line[pos] != ' '
    ensures pos < next && Run(line, pos, next)
    ensures Between(line, next) && RunsBefore(line, next) == RunsBefore(line, pos) + 1
    ensures Tokens(line[pos..]) == [line[pos..next]] + Tokens(line[next..])
  {
    var n := TokenLength(line[pos..]);
    next := pos + n;
    assert line[pos..][..n] == line[pos..next] && line[pos..][n..] == line[next..];
    forall k | pos <= k < next
      ensures line[k] != ' '
    {
      assert line[k] == line[pos..][k - pos];
    }
    assert next < |line| ==> line[next] == line[pos..][n];
    RunCounted(line, pos, next, next);
  }

  lemma SameRun(line: string, a: nat, b: nat, c: nat)
    requires Run(line, a, b) && Run(line, a, c)
    ensures b == c
  {
  }

  lemma LaterRun(line: string, a: nat, b: nat, c: nat)
    requires Run(line, a, b) && a < c <= |line| && line[c - 1] == ' '
    ensures c >= b
  {
  }

  lemma SpaceSkipped(line: string, pos: nat)
    requires Between(line, pos) && pos < |line| && line[pos] == ' '
    ensures Between(line, pos + 1) && RunsBefore(line, pos + 1) == RunsBefore(line, pos)
    ensures Tokens(line[pos..]) == Tokens(line[pos + 1..])
  {
    assert line[pos..][1..] == line[pos + 1..];
  }

  /** From a position between runs on, the tokens are the runs, in order. */
  lemma {:induction false} TokensAreRuns(line: string, pos: nat, a: nat, b: nat) returns (t: nat)
    requires Between(line, pos) && pos <= a && Run(line, a, b)
    ensures RunsBefore(line, a) == RunsBefore(line, pos) + t
    ensures t < |Tokens(line[pos..])| && Tokens(line[pos..])[t] == line[a..b]
    decreases |line| - pos
  {
    assert line[a] != ' ' by { assert line[a] == line[a..b][0]; }
    hide Tokens, RunsBefore, Between;
    if line[pos] == ' ' {
      SpaceSkipped(line, pos);
      t := TokensAreRuns(line, pos + 1, a, b);
    } else {
      var next := FirstRun(line, pos);
      if a == pos {
        SameRun(line, a, b, next);
        t := 0;
      } else {
        LaterRun(line, pos, next, a);
        hide Run;
        t := TokensAreRuns(line, next, a, b);
        t := t + 1;
      }
    }
  }

  lemma {:induction false} TokensCounted(line: string, pos: nat)
    requires Between(line, pos)
    ensures RunsBefore(line, |line|) == RunsBefore(line, pos) + |Tokens(line[pos..])|
    decreases |line| - pos
  {
    if pos == |line| {
    } else if line[pos] == ' ' {
      SpaceSkipped(line, pos);
      TokensCounted(line, pos + 1);
    } else {
      var next := FirstRun(line, pos);
      TokensCounted(line, next);
    }
  }

  lemma {:induction false} RunOfToken(line: string, pos: nat, t: nat) returns (a: nat, b: nat)
    requires Between(line, pos) && t < |Tokens(line[pos..])|
    ensures pos <= a && Run(line, a, b) && RunsBefore(line, a) == RunsBefore(line, pos) + t
    decreases |line| - pos
  {
    assert pos < |line|;
    hide Tokens, RunsBefore, Between;
    if line[pos] == ' ' {
      SpaceSkipped(line, pos);
      a, b := RunOfToken(line, pos + 1, t);
    } else {
      var next := FirstRun(line, pos);
      if t == 0 {
        a, b := pos, next;
      } else {
        a, b := RunOfToken(line, next, t - 1);
      }
    }
  }

  /** The tokens of a line are its runs: the t-th token is the run before which t runs start. */
  lemma TokenMeaning(line: string, t: nat, text: string)
    ensures t < |Tokens(line)| && Tokens(line)[t] == text <==>
      exists a: nat, b: nat :: Run(line, a, b) && RunsBefore(line, a) == t && line[a..b] == text
  {
    assert line[0..] == line;
    if t < |Tokens(line)| {
      var a, b := RunOfToken(line, 0, t);
      var u := TokensAreRuns(line, 0, a, b);
    }
    forall a: nat, b: nat | Run(line, a, b) && RunsBefore(line, a) == t
      ensures t < |Tokens(line)| && Tokens(line)[t] == line[a..b]
    {
      var u := TokensAreRuns(line, 0, a, b);
    }
  }

  /** The first run with a `c` in it: no `c` comes before the run. */
  ghost predicate FirstRunWith(line: string, c: char, a: nat, b: nat)
  {
    Run(line, a, b) && c in line[a..b] && c !in line[..a]
  }

  lemma OneFirstRun(line: string, c: char, a: nat, b: nat, a': nat, b': nat)
    requires FirstRunWith(line, c, a, b) && FirstRunWith(line, c, a', b')
    ensures a == a' && b == b'
  {
    if a < a' { LaterRun(line, a, b, a'); }
    if a' < a { LaterRun(line, a', b', a); }
    SameRun(line, a, b, b');
  }

  /** The search goes on from `pos` to `next` without having met `c`. */
  lemma SearchGoesOn(line: string, c: char, pos: nat, next: nat)
    requires pos <= next <= |line| && c !in line[..pos] && c !in line[pos..next]
    ensures c !in line[..next]
  {
    assert line[..next] == line[..pos] + line[pos..next];
  }

  lemma {:induction false} FirstTokenWith(line: string, c: char, pos: nat) returns (a: nat, b: nat)
    requires Between(line, pos) && c != ' ' && c !in line[..pos]
    ensures a <= b <= |line|
    ensures match FirstWith(Tokens(line[pos..]), c)
      case None => c !in line
      case Some(text) => FirstRunWith(line, c, a, b) && text == line[a..b]
    decreases |line| - pos
  {
    a, b := 0, 0;
    if pos == |line| {
      assert line[..pos] == line;
      return;
    }
    hide Tokens, RunsBefore, Between;
    if line[pos] == ' ' {
      SpaceSkipped(line, pos);
      SearchGoesOn(line, c, pos, pos + 1);
      a, b := FirstTokenWith(line, c, pos + 1);
    } else {
      var next := FirstRun(line, pos);
      if c in line[pos..next] {
        a, b := pos, next;
      } else {
        SearchGoesOn(line, c, pos, next);
        a, b := FirstTokenWith(line, c, next);
      }
    }
  }

  /** The line is no heading, and its first run with a colon selects the port. */
  ghost predicate UbuntuSelects(line: string, p: int)
  {
    && (forall i: nat :: !OccursAt(line, "Local", i))
    && exists a: nat, b: nat :: FirstRunWith(line, ':', a, b) && Selects(line[a..b], ':', p)
  }

  lemma UbuntuPortMeaning(line: string, p: int)
    ensures UbuntuPort(line) == Some(p) <==> UbuntuSelects(line, p)
  {
    ContainsMeaning(line, "Local");
    assert line[0..] == line && line[..0] == "";
    var a, b := FirstTokenWith(line, ':', 0);
    PortAfterMeaning(line[a..b], ':', p);
    hide Contains, PortAfter, Tokens, Selects;
    forall x: nat, y: nat | FirstRunWith(line, ':', x, y)
      ensures FirstWith(Tokens(line), ':').Some? && x == a && y == b
    {
      assert ':' in line by { assert line[x..y] <= line[x..]; }
      OneFirstRun(line, ':', a, b, x, y);
    }
  }

  /** The fourth run of the line selects the port. */
  ghost predicate QnxSelects(line: string, p: int)
  {
    exists a: nat, b: nat :: Run(line, a, b) && RunsBefore(line, a) == 3 && Selects(line[a..b], '.', p)
  }

  lemma QnxPortMeaning(line: string, p: int)
    ensures QnxPort(line) == Some(p) <==> QnxSelects(line, p)
  {
    hide PortAfter, Tokens, Selects;
    if QnxPort(line) == Some(p) {
      var text := Tokens(line)[3];
      TokenMeaning(line, 3, text);
      PortAfterMeaning(text, '.', p);
    }
    if a: nat, b: nat :| Run(line, a, b) && RunsBefore(line, a) == 3 && Selects(line[a..b], '.', p) {
      TokenMeaning(line, 3, line[a..b]);
      PortAfterMeaning(line[a..b], '.', p);
    }
  }

  // ----- what the selected port means

  lemma {:induction false} LengthOfToken(token: string, tail: string)
    requires ' ' !in token && (tail == "" || tail[0] == ' ')
    ensures TokenLength(token + tail) == |token|
    decreases |token|
  {
    if token == "" {
      assert token + tail == tail;
    } else {
      assert (token + tail)[1..] == token[1..] + tail;
      LengthOfToken(token[1..], tail);
    }
  }

  lemma FirstToken(token: string, tail: string)
    requires token != "" && ' ' !in token && (tail == "" || tail[0] == ' ')
    ensures Tokens(token + tail) == [token] + Tokens(tail)
  {
    LengthOfToken(token, tail);
    assert (token + tail)[..|token|] == token && (token + tail)[|token|..] == tail;
  }

  /** Both sides start with the first token of `pre`. */
  lemma FirstTokenApart(pre: string, rest: string) returns (n: nat)
    requires pre != "" && pre[0] != ' ' && pre[|pre| - 1] == ' '
    ensures 0 < n < |pre|
    ensures Tokens(pre) == [pre[..n]] + Tokens(pre[n..])
    ensures Tokens(pre + rest) == [pre[..n]] + Tokens(pre[n..] + rest)
  {
    n := TokenLength(pre);
    assert ' ' !in pre[..n] && n < |pre| && pre[n] == ' ';
    FirstToken(pre[..n], pre[n..] + rest);
    assert pre + rest == pre[..n] + (pre[n..] + rest);
  }

  lemma LeadingSpace(pre: string, rest: string)
    requires pre != "" && pre[0] == ' '
    ensures Tokens(pre + rest) == Tokens(pre[1..] + rest)
  {
    assert (pre + rest)[1..] == pre[1..] + rest;
  }

  /** A cut after a space separates the tokens. */
  lemma {:induction false} TokensConcat(pre: string, rest: string)
    requires pre == "" || pre[|pre| - 1] == ' '
    ensures Tokens(pre + rest) == Tokens(pre) + Tokens(rest)
    decreases |pre|
  {
    if pre == "" {
      assert pre + rest == rest;
    } else if pre[0] == ' ' {
      LeadingSpace(pre, rest);
      TokensConcat(pre[1..], rest);
    } else {
      var n := FirstTokenApart(pre, rest);
      TokensConcat(pre[n..], rest);
    }
  }

  lemma {:induction false} NoTokenWith(pre: string, c: char, rest: seq<string>)
    requires c !in pre
    ensures FirstWith(Tokens(pre) + rest, c) == FirstWith(rest, c)
    decreases |pre|
  {
    if pre == "" {
      assert Tokens(pre) + rest == rest;
    } else if pre[0] == ' ' {
      NoTokenWith(pre[1..], c, rest);
    } else {
      var n := TokenLength(pre);
      var all := Tokens(pre) + rest;
      assert all[0] == pre[..n] && all[1..] == Tokens(pre[n..]) + rest;
      NoTokenWith(pre[n..], c, rest);
    }
  }

  lemma {:induction false} LastIndexIs(s: string, c: char, i: nat)
    requires i < |s| && s[i] == c && forall k :: i < k < |s| ==> s[k] != c
    ensures LastIndex(s, c) == Some(i)
    decreases |s|
  {
    if i < |s| - 1 {
      LastIndexIs(s[..|s| - 1], c, i);
    }
  }

  /** An address, a separator, a port in decimal, and nothing that could be mistaken for more of it. */
  function Endpoint(host: string, separator: char, port: int, junk: string): string
  {
    host + [separator] + (Print(port) + junk)
  }

  predicate IsEndpoint(host: string, separator: char, port: int, junk: string)
  {
    && 0 < port < 65536 && !IsDigit(separator) && separator != ' '
    && ' ' !in host && ' ' !in junk && separator !in junk && DigitsEnd(junk)
  }

  lemma EndpointPort(host: string, separator: char, port: int, junk: string)
    requires IsEndpoint(host, separator, port, junk)
    ensures ' ' !in Endpoint(host, separator, port, junk) && separator in Endpoint(host, separator, port, junk)
    ensures PortAfter(Endpoint(host, separator, port, junk), separator) == Some(port)
  {
    var token := Endpoint(host, separator, port, junk);
    DigitsShape(port);
    AtoIPrint(port, junk);
    assert token[|host|] == separator && token[|host| + 1..] == Print(port) + junk;
    LastIndexIs(token, separator, |host|);
  }

  /** A line of ss whose first token with a colon is host:port reports exactly that port, for any host and layout. */
  lemma UbuntuLine(pre: string, host: string, port: int, junk: string, tail: string)
    requires IsEndpoint(host, ':', port, junk)
    requires ':' !in pre && (pre == "" || pre[|pre| - 1] == ' ') && (tail == "" || tail[0] == ' ')
    requires forall i: nat :: !OccursAt(pre + (Endpoint(host, ':', port, junk) + tail), "Local", i)
    ensures UbuntuPort(pre + (Endpoint(host, ':', port, junk) + tail)) == Some(port)
  {
    ContainsMeaning(pre + (Endpoint(host, ':', port, junk) + tail), "Local");
    hide Contains;
    var token := Endpoint(host, ':', port, junk);
    EndpointPort(host, ':', port, junk);
    TokensConcat(pre, token + tail);
    FirstToken(token, tail);
    NoTokenWith(pre, ':', [token] + Tokens(tail));
  }

  /** A line of netstat whose fourth field is host.port reports exactly that port. */
  lemma QnxLine(pre: string, host: string, port: int, junk: string, tail: string)
    requires IsEndpoint(host, '.', port, junk)
    requires RunsBefore(pre, |pre|) == 3 && pre[|pre| - 1] == ' ' && (tail == "" || tail[0] == ' ')
    ensures QnxPort(pre + (Endpoint(host, '.', port, junk) + tail)) == Some(port)
  {
    var token := Endpoint(host, '.', port, junk);
    EndpointPort(host, '.', port, junk);
    TokensCounted(pre, 0);
    assert pre[0..] == pre;
    TokensConcat(pre, token + tail);
    FirstToken(token, tail);
  }

  // ----- the report

  /** Each key once, in the order of first appearance. */
  function FirstSeen(keys: seq<Option<int>>): seq<int>
  {
    if keys == [] then []
    else
      var before := FirstSeen(keys[..|keys| - 1]);
      match keys[|keys| - 1]
      case None => before
      case Some(port) => if port in before then before else before + [port]
  }

  /** Some line mentions `p`, and no line up to it mentions `q`. */
  ghost predicate MentionedBefore(keys: seq<Option<int>>, p: int, q: int)
  {
    exists i :: 0 <= i < |keys| && keys[i] == Some(p) && forall k :: 0 <= k <= i ==> keys[k] != Some(q)
  }

  lemma MentionedLater(keys: seq<Option<int>>, n: nat, p: int, q: int)
    requires n <= |keys| && MentionedBefore(keys[..n], p, q)
    ensures MentionedBefore(keys, p, q)
  {
  }

  /** The report has no duplicates, holds exactly the ports the lines select, and keeps their order of appearance. */
  lemma {:induction false} FirstSeenMeaning(keys: seq<Option<int>>)
    ensures var report := FirstSeen(keys);
      && (forall i, j :: 0 <= i < j < |report| ==> report[i] != report[j])
      && (forall p :: p in report <==> Some(p) in keys)
      && (forall i, j :: 0 <= i < j < |report| ==> MentionedBefore(keys, report[i], report[j]))
    decreases |keys|
  {
    if keys != [] {
      var n := |keys| - 1;
      var init, before, report := keys[..n], FirstSeen(keys[..n]), FirstSeen(keys);
      FirstSeenMeaning(init);
      assert keys == init + [keys[n]];
      forall i, j | 0 <= i < j < |report|
        ensures MentionedBefore(keys, report[i], report[j])
      {
        if j < |before| {
          assert MentionedBefore(init, before[i], before[j]);
          MentionedLater(keys, n, before[i], before[j]);
        } else {
          assert before[i] in before && Some(before[i]) in init;
          var k :| 0 <= k < n && init[k] == Some(before[i]);
          assert report[j] !in before && Some(report[j]) !in init;
          assert keys[k] == Some(report[i]) && forall l :: 0 <= l <= k ==> keys[l] == init[l] && keys[l] != Some(report[j]);
        }
      }
    }
  }

  function UbuntuKeys(lines: seq<string>): seq<Option<int>>
  {
    seq(|lines|, i requires 0 <= i < |lines| => UbuntuPort(lines[i]))
  }

  function QnxKeys(lines: seq<string>): seq<Option<int>>
  {
    seq(|lines|, i requires 0 <= i < |lines| => QnxPort(lines[i]))
  }

  /** A port is reported exactly if some line selects it. */
  lemma ReportMeaning(lines: seq<string>, p: int)
    ensures p in FirstSeen(UbuntuKeys(lines)) <==> exists k :: 0 <= k < |lines| && UbuntuSelects(lines[k], p)
    ensures p in FirstSeen(QnxKeys(lines)) <==> exists k :: 0 <= k < |lines| && QnxSelects(lines[k], p)
  {
    FirstSeenMeaning(UbuntuKeys(lines));
    FirstSeenMeaning(QnxKeys(lines));
    hide UbuntuSelects, QnxSelects, UbuntuPort, QnxPort, FirstSeen;
    forall k | 0 <= k < |lines|
      ensures UbuntuKeys(lines)[k] == Some(p) <==> UbuntuSelects(lines[k], p)
      ensures QnxKeys(lines)[k] == Some(p) <==> QnxSelects(lines[k], p)
    {
      UbuntuPortMeaning(lines[k], p);
      QnxPortMeaning(lines[k], p);
    }
  }

  /** Every reported port is in range. */
  lemma PortsInRange(lines: seq<string>)
    ensures forall p :: p in FirstSeen(UbuntuKeys(lines)) ==> 0 < p < 65536
    ensures forall p :: p in FirstSeen(QnxKeys(lines)) ==> 0 < p < 65536
  {
    FirstSeenMeaning(UbuntuKeys(lines));
    FirstSeenMeaning(QnxKeys(lines));
  }

  // ----- the loops

  method TokenEnd(line: string, start: nat) returns (end: nat)
    requires start < |line| && line[start] != ' '
    ensures start < end <= |line| && ' ' !in line[start..end]
    ensures end < |line| ==> line[end] == ' '
  {
    end := start + 1;
    while end < |line| && line[end] != ' '
      invariant start < end <= |line| && ' ' !in line[start..end]
    {
      end := end + 1;
    }
  }

  /** strtok: the next token at or after `pos`, and where to go on. */
  method StrTok(line: string, pos: nat) returns (token: Option<string>, next: nat)
    requires pos <= |line|
    ensures pos <= next <= |line|
    ensures token.None? ==> Tokens(line[pos..]) == []
    ensures token.Some? ==> pos < next && Tokens(line[pos..]) == [token.value] + Tokens(line[next..])
  {
    var start := pos;
    while start < |line| && line[start] == ' '
      invariant pos <= start <= |line|
      invariant Tokens(line[start..]) == Tokens(line[pos..])
    {
      assert line[start..][1..] == line[start + 1..];
      start := start + 1;
    }
    next := start;
    if start == |line| {
      return None, next;
    }
    next := TokenEnd(line, start);
    var text := line[start..next];
    assert line[start..] == text + line[next..];
    FirstToken(text, line[next..]);
    token := Some(text);
  }

  /** strrchr, the digits after it, and the range check. */
  method ReadPort(token: string, separator: char) returns (port: Option<int>)
    ensures port == PortAfter(token, separator)
  {
    var i := |token|;
    assert token[..i] == token;
    while i > 0 && token[i - 1] != separator
      invariant 0 <= i <= |token|
      invariant LastIndex(token[..i], separator) == LastIndex(token, separator)
    {
      assert token[..i][..i - 1] == token[..i - 1];
      i := i - 1;
    }
    if i == 0 || i == |token| {
      return None;
    }
    var value := AtoI(token[i..]);
    port := if 0 < value < 65536 then Some(value) else None;
  }

  /** The `seen_ports` table marks exactly the reported ports. */
  ghost predicate Marks(seen: array<bool>, report: seq<int>)
    reads seen
  {
    && seen.Length == 65536
    && (forall p :: p in report ==> 0 < p < 65536)
    && forall p :: 0 <= p < 65536 ==> (seen[p] <==> p in report)
  }

  method Mark(seen: array<bool>, report: seq<int>, port: Option<int>) returns (report': seq<int>)
    requires Marks(seen, report) && (port.Some? ==> 0 < port.value < 65536)
    modifies seen
    ensures Marks(seen, report')
    ensures report' == if port.None? || port.value in report then report else report + [port.value]
  {
    report' := report;
    if port.Some? && !seen[port.value] {
      seen[port.value] := true;
      report' := report + [port.value];
    }
  }

  /** ubuntu_check_tcp_ports and ubuntu_check_udp_ports. */
  method UbuntuPorts(lines: seq<string>) returns (report: seq<int>)
    ensures report == FirstSeen(UbuntuKeys(lines))
  {
    var seen := new bool[65536](_ => false);
    report := [];
    ghost var keys := UbuntuKeys(lines);
    for i := 0 to |lines|
      invariant Marks(seen, report) && report == FirstSeen(keys[..i])
    {
      assert keys[..i + 1][..i] == keys[..i];
      var line := lines[i];
      if !Contains(line, "Local") {
        var token, pos := StrTok(line, 0);
        assert line[0..] == line;
        while token.Some? && ':' !in token.value
          invariant pos <= |line| && Marks(seen, report)
          invariant FirstWith(Tokens(line), ':') ==
            match token case None => None case Some(t) => FirstWith([t] + Tokens(line[pos..]), ':')
          decreases |line| - pos, token.Some?
        {
          assert ([token.value] + Tokens(line[pos..]))[1..] == Tokens(line[pos..]);
          token, pos := StrTok(line, pos);
        }
        if token.Some? {
          var port := ReadPort(token.value, ':');
          assert keys[i] == port;
          report := Mark(seen, report, port);
        }
      }
    }
    assert keys[..|lines|] == keys;
  }

  /** The `n`-th token of a line. */
  method Field(line: string, n: nat) returns (token: Option<string>)
    requires n > 0
    ensures token == if n <= |Tokens(line)| then Some(Tokens(line)[n - 1]) else None
  {
    var pos;
    token, pos := StrTok(line, 0);
    var field := 1;
    assert line[0..] == line;
    while token.Some? && field < n
      invariant pos <= |line| && 1 <= field <= n
      invariant token.Some? ==> |Tokens(line)| == field + |Tokens(line[pos..])| && Tokens(line)[field - 1] == token.value
      invariant token.Some? ==> Tokens(line)[field..] == Tokens(line[pos..])
      invariant token.None? ==> |Tokens(line)| == field - 1
      decreases n - field
    {
      token, pos := StrTok(line, pos);
      field := field + 1;
    }
  }

  /** qnx_check_tcp_ports and qnx_check_udp_ports. */
  method QnxPorts(lines: seq<string>) returns (report: seq<int>)
    ensures report == FirstSeen(QnxKeys(lines))
  {
    var seen := new bool[65536](_ => false);
    report := [];
    ghost var keys := QnxKeys(lines);
    for i := 0 to |lines|
      invariant Marks(seen, report) && report == FirstSeen(keys[..i])
    {
      assert keys[..i + 1][..i] == keys[..i];
      var token := Field(lines[i], 4);
      if token.Some? {
        var port := ReadPort(token.value, '.');
        assert keys[i] == port;
        report := Mark(seen, report, port);
      } else {
        assert keys[i] == None;
      }
    }
    assert keys[..|lines|] == keys;
  }
}
