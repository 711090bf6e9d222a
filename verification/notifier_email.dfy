/**
 * The message-building part of the e-mail notifier (notifiers/notifier_email.py):
 * the stored subject title, the subject line, the `To` header and the scorer
 * cells of the HTML body.
 */
module NotifierEmail {
  import opened Wrappers
  import opened Constants
  import opened Strings

  const PreNewMatch: string := "New match found."
  const PreKickOff: string := "KICK-OFF!"
  const PreHalfTime: string := "HALF TIME!"
  const PreFullTime: string := "FULL TIME!"
  const PreTeamGoal: string := "GOOOOOOAAAAALLL!!!"
  const PreOppositionGoal: string := "Uh oh..."

  /** The entries of the match's `matchdict` that the subject line uses. */
  datatype MatchDict = MatchDict(hometeam: string, homescore: string, awayscore: string, awayteam: string)

  /** A side's scorers: not a list, or a list already rendered by `formatIncidents(..., newline=True)`. */
  datatype Scorers = NotAList | Incidents(formatted: string)

  /** Building the subject fails when the event has no prefix (`prefix` is never bound). */
  datatype SubjectError = PrefixUnbound(event: string)

  /** An `EmailNotifier`; `title` is the stored subject title. */
  datatype EmailNotifier = EmailNotifier(
    server: string, port: nat, username: string, password: string,
    fromaddr: string, toaddrs: seq<string>, title: string)

  /** The stored title: nothing for a missing or empty title, else the title and a space. */
  function StoredTitle(title: Option<string>): (t: string)
    ensures t == "" <==> title == None || title == Some("")
    ensures t != "" ==> t[..|t| - 1] == title.value && t[|t| - 1] == ' '
  {
    if title == None || title == Some("") then "" else title.value + " "
  }

  /** `EmailNotifier.__init__`. */
  function NewEmailNotifier(server: string, port: nat, username: string, password: string,
                            fromaddr: string, toaddrs: seq<string>, title: Option<string>): (n: EmailNotifier)
    ensures n.toaddrs == toaddrs && n.fromaddr == fromaddr
    ensures n.title == StoredTitle(title)
    ensures n.title == "" <==> title == None || title == Some("")
  {
    EmailNotifier(server, port, username, password, fromaddr, toaddrs, StoredTitle(title))
  }

  /** The `if`/`elif` chain of `__getSubject`: the six match codes have a prefix, nothing else does. */
  function SubjectPrefix(event: string): (prefix: Option<string>)
    ensures prefix.Some? <==> IsMatchCode(event)
  {
    if event == StatusMatchFound then Some(PreNewMatch)
    else if event == StatusKickOff then Some(PreKickOff)
    else if event == StatusHalfTime then Some(PreHalfTime)
    else if event == StatusFullTime then Some(PreFullTime)
    else if event == GoalMyTeam then Some(PreTeamGoal)
    else if event == GoalOpposition then Some(PreOppositionGoal)
    else None
  }

  /** Distinct match codes get distinct prefixes. */
  lemma SubjectPrefixInjective(e1: string, e2: string)
    requires SubjectPrefix(e1).Some? && SubjectPrefix(e1) == SubjectPrefix(e2)
    ensures e1 == e2
  {
  }

  /** `"{hometeam} {homescore}-{awayscore} {awayteam}"`. */
  function ScoreText(d: MatchDict): (score: string)
    ensures |score| == |d.hometeam| + |d.homescore| + |d.awayscore| + |d.awayteam| + 3
    ensures score[..|d.hometeam|] == d.hometeam && score[|d.hometeam|] == ' '
    ensures score[|score| - |d.awayteam|..] == d.awayteam && score[|score| - |d.awayteam| - 1] == ' '
    ensures score[|d.hometeam| + 1 + |d.homescore|] == '-'
    ensures score[|d.hometeam| + 1..|d.hometeam| + 1 + |d.homescore|] == d.homescore
    ensures score[|d.hometeam| + 2 + |d.homescore|..|score| - |d.awayteam| - 1] == d.awayscore
  {
    d.hometeam + " " + d.homescore + "-" + d.awayscore + " " + d.awayteam
  }

  /** `__getSubject`: title, prefix, a space and the score. */
  function Subject(n: EmailNotifier, event: string, d: MatchDict): (r: Result<string, SubjectError>)
    ensures r.Err? <==> !IsMatchCode(event)
    ensures r.Ok? ==> |n.title| + |ScoreText(d)| < |r.value|
    ensures r.Ok? ==> r.value[..|n.title|] == n.title
    ensures r.Ok? ==> r.value[|r.value| - |ScoreText(d)|..] == ScoreText(d)
    ensures r.Ok? ==> r.value[|n.title|..|r.value| - |ScoreText(d)|] == SubjectPrefix(event).value + " "
  {
    match SubjectPrefix(event)
    case None => Err(PrefixUnbound(event))
    case Some(prefix) =>
      var score, middle := ScoreText(d), prefix + " ";
      var s := n.title + middle + score;
      assert s[..|n.title|] == n.title;
      assert s[|n.title|..|s| - |score|] == middle;
      assert s[|s| - |score|..] == score;
      Ok(n.title + prefix + " " + ScoreText(d))
  }

  /** The subject line tells the reader which event happened: two events with the same subject
      for the same score are the same event. */
  lemma SubjectIdentifiesEvent(n: EmailNotifier, e1: string, e2: string, d: MatchDict)
    requires Subject(n, e1, d).Ok? && Subject(n, e1, d) == Subject(n, e2, d)
    ensures e1 == e2
  {
    var s := Subject(n, e1, d).value;
    var middle := s[|n.title|..|s| - |ScoreText(d)|];
    var p1, p2 := SubjectPrefix(e1).value, SubjectPrefix(e2).value;
    assert middle == p1 + " " && middle == p2 + " ";
    assert p1 == middle[..|middle| - 1] == p2;
    SubjectPrefixInjective(e1, e2);
  }

  /** League codes have no subject: a league event reaching this notifier fails. */
  lemma LeagueCodesHaveNoSubject(n: EmailNotifier, d: MatchDict)
    ensures Subject(n, LeagueGoal, d).Err? && Subject(n, LeagueStatusChange, d).Err?
  {
  }

  /** No address holds a comma, so a comma in the header can only be a separator. */
  predicate CommaFree(addresses: seq<string>)
  {
    forall i :: 0 <= i < |addresses| ==> ',' !in addresses[i]
  }

  /** Total length of the addresses, separators not counted. */
  function TotalLength(addresses: seq<string>): nat
  {
    if addresses == [] then 0 else |addresses[0]| + TotalLength(addresses[1..])
  }

  /** `", ".join(addresses)`. */
  function JoinAddresses(addresses: seq<string>): (header: string)
    ensures addresses == [] ==> header == ""
    ensures addresses != [] ==> |header| == TotalLength(addresses) + 2 * (|addresses| - 1)
    ensures addresses != [] ==> |addresses[0]| <= |header| && |addresses[|addresses| - 1]| <= |header|
    ensures addresses != [] ==> header[..|addresses[0]|] == addresses[0]
    ensures addresses != [] ==> header[|header| - |addresses[|addresses| - 1]|..] == addresses[|addresses| - 1]
    ensures CommaFree(addresses) ==> (',' in header <==> |addresses| > 1)
  {
    if addresses == [] then ""
    else if |addresses| == 1 then
      assert CommaFree(addresses) ==> ',' !in addresses[0];
      addresses[0]
    else
      var tail := addresses[1..];
      var rest := JoinAddresses(tail);
      assert tail[|tail| - 1] == addresses[|addresses| - 1];
      JoinStep(addresses[0], rest);
      addresses[0] + ", " + rest
  }

  /** One step of the join: the first address, then the separator, then the rest. */
  lemma JoinStep(first: string, rest: string)
    ensures (first + ", " + rest)[..|first|] == first
    ensures (first + ", " + rest)[|first| + 2..] == rest
    ensures ',' in first + ", " + rest
  {
    var header := first + ", " + rest;
    assert header[|first|] == ',';
  }

  /** The `To` header of the message. */
  function ToHeader(n: EmailNotifier): (header: string)
    ensures n.toaddrs != [] && CommaFree(n.toaddrs) ==> SplitAddresses(header) == n.toaddrs
  {
    if n.toaddrs != [] && CommaFree(n.toaddrs) then
      ToHeaderRoundTrip(n.toaddrs);
      JoinAddresses(n.toaddrs)
    else
      JoinAddresses(n.toaddrs)
  }

  /** Reading a `To` header back into its addresses: cut at each `", "`; a comma that is not
      followed by a space stays inside its address. */
  function SplitAddresses(s: string): (parts: seq<string>)
    ensures parts != []
    decreases |s|
  {
    if |s| < 2 then [s]
    else if s[..2] == ", " then [""] + SplitAddresses(s[2..])
    else
      var parts := SplitAddresses(s[1..]);
      [[s[0]] + parts[0]] + parts[1..]
  }

  /** Joining the pieces of any string back with `", "` gives the string again. */
  lemma {:induction false} SplitJoinInverse(s: string)
    ensures JoinAddresses(SplitAddresses(s)) == s
    decreases |s|
  {
    if |s| < 2 {
    } else if s[..2] == ", " {
      assert SplitAddresses(s) == [""] + SplitAddresses(s[2..]);
      SplitJoinInverse(s[2..]);
      JoinCons("", SplitAddresses(s[2..]));
      Reassemble(s, 2);
    } else {
      var parts := SplitAddresses(s[1..]);
      assert SplitAddresses(s) == [[s[0]] + parts[0]] + parts[1..];
      SplitJoinInverse(s[1..]);
      JoinExtendFirst(s[0], parts);
      Reassemble(s, 1);
    }
  }

  /** Cutting a string at `k` and putting the two halves back together gives the string. */
  lemma Reassemble(s: string, k: nat)
    requires k <= |s|
    ensures s[..k] + s[k..] == s
    ensures k == 1 ==> [s[0]] + s[1..] == s
  {
  }

  /** Putting an address in front adds it and one separator in front of the header. */
  lemma JoinCons(first: string, parts: seq<string>)
    requires parts != []
    ensures JoinAddresses([first] + parts) == first + ", " + JoinAddresses(parts)
    ensures first == "" ==> JoinAddresses([first] + parts) == ", " + JoinAddresses(parts)
  {
    assert ([first] + parts)[1..] == parts;
    assert "" + ", " + JoinAddresses(parts) == ", " + JoinAddresses(parts);
  }

  /** Putting a character in front of the first address puts it in front of the header. */
  lemma JoinExtendFirst(c: char, parts: seq<string>)
    requires parts != []
    ensures JoinAddresses([[c] + parts[0]] + parts[1..]) == [c] + JoinAddresses(parts)
  {
    var first, tail := [c] + parts[0], parts[1..];
    if tail == [] {
      assert [first] + tail == [first];
    } else {
      JoinCons(first, tail);
      JoinCons(parts[0], tail);
      assert parts == [parts[0]] + tail;
      PrependChar(c, parts[0], JoinAddresses(tail));
    }
  }

  /** A character in front of the first address is a character in front of the joined pair. */
  lemma PrependChar(c: char, first: string, rest: string)
    ensures [c] + first + ", " + rest == [c] + (first + ", " + rest)
  {
  }

  /** A `To` header that reads back as the recipients is their join: the separator is `", "`
      and nothing else. */
  lemma HeaderIsTheJoin(addresses: seq<string>, header: string)
    requires SplitAddresses(header) == addresses
    ensures header == JoinAddresses(addresses)
  {
    SplitJoinInverse(header);
  }

  /** A comma without a space after it is part of an address, so `"a,b"` is one recipient. */
  lemma BareCommaStaysInAddress()
    ensures SplitAddresses("a,b") == ["a,b"]
  {
    var header := "a,b";
    var tail := header[1..];
    assert SplitAddresses(tail[1..]) == ["b"];
    assert tail[..2][1] == 'b';
    assert SplitAddresses(tail) == [[tail[0]] + "b"];
    assert [tail[0]] + "b" == ",b";
    assert header[..2][0] == 'a';
    assert SplitAddresses(header) == [[header[0]] + ",b"];
    assert [header[0]] + ",b" == header;
  }

  /** The `To` header lists exactly the recipients, in order, when no address holds a comma. */
  lemma {:induction false} ToHeaderRoundTrip(addresses: seq<string>)
    requires addresses != []
    requires CommaFree(addresses)
    ensures SplitAddresses(JoinAddresses(addresses)) == addresses
    decreases |addresses|
  {
    if |addresses| == 1 {
      SplitSingle(addresses[0]);
    } else {
      SplitAtFirstSeparator(addresses[0], JoinAddresses(addresses[1..]));
      ToHeaderRoundTrip(addresses[1..]);
      assert addresses == [addresses[0]] + addresses[1..];
    }
  }

  /** An address without a comma reads back as itself. */
  lemma {:induction false} SplitSingle(a: string)
    requires ',' !in a
    ensures SplitAddresses(a) == [a]
    decreases |a|
  {
    if |a| >= 2 {
      assert a[..2] != ", " by { assert a[..2][0] == a[0]; }
      SplitSingle(a[1..]);
      assert a == [a[0]] + a[1..];
    }
  }

  /** The first address ends at the first `", "`, which is dropped. */
  lemma {:induction false} SplitAtFirstSeparator(head: string, rest: string)
    requires ',' !in head
    ensures SplitAddresses(head + ", " + rest) == [head] + SplitAddresses(rest)
    decreases |head|
  {
    var s := head + ", " + rest;
    if head == [] {
      assert s[..2] == ", " && s[2..] == rest;
    } else {
      assert s[..2] != ", " by { assert s[..2][0] == head[0]; }
      assert s[1..] == head[1..] + ", " + rest;
      SplitAtFirstSeparator(head[1..], rest);
      assert head == [head[0]] + head[1..];
    }
  }

  /** `text.replace("\n", "<br />")`. */
  function BreakLines(text: string): (r: string)
    ensures '\n' !in r
    ensures '\n' !in text ==> r == text
  {
    if text == [] then []
    else (if text[0] == '\n' then "<br />" else [text[0]]) + BreakLines(text[1..])
  }

  /** The inverse reading of an HTML cell: each `<br />` back to a line break. */
  function UnbreakLines(html: string): string
    decreases |html|
  {
    if html == [] then []
    else if |html| >= 6 && html[..6] == "<br />" then "\n" + UnbreakLines(html[6..])
    else [html[0]] + UnbreakLines(html[1..])
  }

  /** A `<br />` tag reads back as one line break. */
  lemma UnbreakTag(rest: string)
    ensures UnbreakLines("<br />" + rest) == "\n" + UnbreakLines(rest)
  {
    var html := "<br />" + rest;
    assert html[..6] == "<br />" && html[6..] == rest;
  }

  /** Any other character that cannot open a tag reads back as itself. */
  lemma UnbreakPlain(c: char, rest: string)
    requires c != '<'
    ensures UnbreakLines([c] + rest) == [c] + UnbreakLines(rest)
  {
    var html := [c] + rest;
    assert html[0] == c && html[1..] == rest;
  }

  /** No line of the scorer text is lost: the cell reads back to the text whenever the text has
      no markup of its own. */
  lemma {:induction false} BreakLinesRoundTrip(text: string)
    requires '<' !in text
    ensures UnbreakLines(BreakLines(text)) == text
  {
    if text != [] {
      var rest := BreakLines(text[1..]);
      BreakLinesRoundTrip(text[1..]);
      if text[0] == '\n' {
        assert BreakLines(text) == "<br />" + rest;
        UnbreakTag(rest);
      } else {
        assert BreakLines(text) == [text[0]] + rest;
        UnbreakPlain(text[0], rest);
      }
      Reassemble(text, 1);
    }
  }

  /** The `hsc` / `asc` cell for one side's scorers. */
  function ScorerCell(scorers: Scorers): (cell: string)
    ensures '\n' !in cell
    ensures scorers.NotAList? ==> cell == ""
    ensures scorers.Incidents? ==> cell == BreakLines(scorers.formatted)
  {
    match scorers
    case NotAList => ""
    case Incidents(formatted) => BreakLines(formatted)
  }
}
