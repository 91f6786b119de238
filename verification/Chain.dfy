/** The stepping-stone chain of proj2: awget.c packs the list and makes the first hop, each stone
    (ss.c) takes itself off the list, forwards the rest to an arbitrary other stone, and the last
    one fetches. */
module Chain {
  import opened Basics
  import opened Bytes

  datatype Element = Element(host: string, port: string)

  /** A list header and the list elements that follow it on a link. The size travels in network
      byte order. */
  datatype Request = Request(size: seq<byte>, fName: string, elements: seq<Element>)

  /** The size field agrees with what is sent. */
  predicate Consistent(r: Request) {
    |r.elements| < 0x1_0000_0000 && r.size == Be32(|r.elements|)
  }

  function SizeOf(r: Request): nat
    requires |r.size| == 4
  {
    FromBe32(r.size[0], r.size[1], r.size[2], r.size[3])
  }

  lemma SizeIsCount(r: Request)
    requires Consistent(r)
    ensures |r.size| == 4 && SizeOf(r) == |r.elements|
  {
    Be32RoundTrip(|r.elements|);
  }

  // ---------------------------------------------------------------- what a stone prints

  /** A stone collects its log text in a buffer of this size before it forwards anything. */
  const PRINT_SIZE := 8192

  /** The array a stone reads the list into. */
  const LIST_ROOM := 1024

  function Opening(me: Element, fName: string): (s: string)
    ensures |s| == 34 + |me.host| + |me.port| + |fName|
  {
    "ss <" + me.host + ", " + me.port + ">:\n Request: " + fName + "\n chainlist is\n"
  }

  function Listed(e: Element): (s: string)
    ensures |s| == Width(e)
  {
    " <" + e.host + ", " + e.port + ">\n"
  }

  function Width(e: Element): nat {
    6 + |e.host| + |e.port|
  }

  /** The first `n` elements. */
  function ListedAll(list: seq<Element>, n: nat): string
    requires n <= |list|
  {
    if n == 0 then "" else ListedAll(list, n - 1) + Listed(list[n - 1])
  }

  function Closing(next: Element): (s: string)
    ensures |s| == 32 + Width(next)
  {
    " next SS is <" + next.host + ", " + next.port + ">\n" + " waiting for file...\n"
  }

  /** The whole text of the stone `me` that passes the list on to `next`. */
  function Printed(me: Element, fName: string, list: seq<Element>, next: Element): string {
    Opening(me, fName) + ListedAll(list, |list|) + Closing(next)
  }

  /** The text, with its terminating NUL, and the list fit. */
  predicate Fits(me: Element, fName: string, list: seq<Element>, next: Element) {
    |list| <= LIST_ROOM && |Printed(me, fName, list, next)| < PRINT_SIZE
  }

  lemma {:induction false} ListedGrows(list: seq<Element>, m: nat, n: nat)
    requires m <= n <= |list|
    ensures |ListedAll(list, m)| <= |ListedAll(list, n)|
  {
    if m < n {
      ListedGrows(list, m, n - 1);
    }
  }

  // ---------------------------------------------------------------- one stone

  /** `Overrun`: the stone writes beyond its buffer or array. */
  datatype Action = Fetch(fName: string) | Forward(to: Element, request: Request) | Overrun

  /** Pass a request on, given the draw of `rand()`. */
  function Pass(r: Request, draw: nat): Action
    requires Consistent(r) && r.elements != []
  {
    var next := draw % |r.elements|;
    Forward(r.elements[next], Request(Be32(|r.elements| - 1), r.fName, Without(r.elements, next)))
  }

  /** What the stone that calls itself `me` does with a request. */
  function StoneStep(me: Element, r: Request, draw: nat): Action
    requires Consistent(r)
  {
    if r.elements == [] then Fetch(r.fName)
    else if Fits(me, r.fName, r.elements, r.elements[draw % |r.elements|]) then Pass(r, draw)
    else Overrun
  }

  /** The send loop of awget and of a stone: every element but the chosen one, in order. */
  method SendOthers(list: array<Element>, count: nat, next: nat) returns (sent: seq<Element>)
    requires next < count <= list.Length
    ensures sent == Without(list[..count], next)
  {
    sent := [];
    for i := 0 to count
      invariant sent == if i <= next then list[..i] else Without(list[..i], next)
    {
      if i != next {
        sent := sent + [list[i]];
      }
    }
  }

  /** The receive loop of a stone: read the list into the array and print it. */
  method ReceiveList(me: Element, r: Request, list: array<Element>) returns (ok: bool, text: string)
    requires list.Length == LIST_ROOM
    modifies list
    ensures ok <==> |r.elements| <= LIST_ROOM && |text| < PRINT_SIZE
    ensures ok ==> text == Opening(me, r.fName) + ListedAll(r.elements, |r.elements|) && list[..|r.elements|] == r.elements
    ensures !ok ==> |r.elements| > LIST_ROOM || |Opening(me, r.fName) + ListedAll(r.elements, |r.elements|)| >= PRINT_SIZE
  {
    text := Opening(me, r.fName);
    ghost var all := |r.elements|;
    for i := 0 to |r.elements|
      invariant i <= LIST_ROOM && list[..i] == r.elements[..i]
      invariant text == Opening(me, r.fName) + ListedAll(r.elements, i)
    {
      ListedGrows(r.elements, i, all);
      if i == LIST_ROOM || |text| >= PRINT_SIZE {
        return false, text;
      }
      list[i] := r.elements[i];
      text := text + Listed(list[i]);
    }
    assert r.elements[..all] == r.elements;
    return |text| < PRINT_SIZE, text;
  }

  /** `connection` and `curr_ss`: decode the size, and either fetch or read and print the list, pick,
      and forward. */
  method Connection(me: Element, r: Request, draw: nat) returns (action: Action)
    requires Consistent(r)
    ensures action == StoneStep(me, r, draw)
  {
    SizeIsCount(r);
    var lSize := SizeOf(r);
    if lSize == 0 {
      return Fetch(r.fName);
    }
    var list := new Element[LIST_ROOM](i => Element("", ""));
    var next := draw % lSize;
    var ok, text := ReceiveList(me, r, list);
    if !ok {
      return Overrun;
    }
    text := text + Closing(list[next]);
    if |text| >= PRINT_SIZE {
      return Overrun;
    }
    var to := list[next];
    var sent := SendOthers(list, lSize, next);
    action := Forward(to, Request(Be32(lSize - 1), r.fName, sent));
  }

  /** The first hop in awget's `main`. */
  method FirstHop(elements: array<Element>, lSize: nat, url: string, draw: nat) returns (action: Action)
    requires 1 <= lSize <= elements.Length && lSize < 0x1_0000_0000
    ensures action == Pass(Request(Be32(lSize), url, elements[..lSize]), draw)
  {
    var r := draw % lSize;
    var sent := SendOthers(elements, lSize, r);
    action := Forward(elements[r], Request(Be32(lSize - 1), url, sent));
  }

  // ---------------------------------------------------------------- the whole chain

  /** How a request travels: the stones visited, the requests sent on the links, and the name fetched
      in the end, or None when a stone overran. */
  datatype Trip = Trip(visited: seq<Element>, links: seq<Request>, fetched: Option<string>)

  /** What the stone behind an element calls itself. */
  type Names = Element -> Element

  /** The request goes out from awget, or from a stone that got this far. */
  function Travel(names: Names, r: Request, draws: nat -> nat, hop: nat): Trip
    requires Consistent(r) && r.elements != []
    decreases |r.elements|
  {
    var pass := Pass(r, draws(hop));
    match StoneStep(names(pass.to), pass.request, draws(hop + 1))
    case Fetch(name) => Trip([pass.to], [pass.request], Some(name))
    case Overrun => Trip([pass.to], [pass.request], None)
    case Forward(_, _) =>
      var rest := Travel(names, pass.request, draws, hop + 1);
      Trip([pass.to] + rest.visited, [pass.request] + rest.links, rest.fetched)
  }

  /** On link k the size field agrees with the list sent and the name is unchanged, and the stones
      visited so far make up the original list together with the list travelling. */
  ghost predicate LinkOk(r: Request, t: Trip, k: nat)
    requires k < |t.links| && |t.visited| == |t.links|
  {
    && Consistent(t.links[k]) && t.links[k].fName == r.fName
    && |t.links[k].elements| == |r.elements| - k - 1
    && multiset(t.visited[..k + 1]) + multiset(t.links[k].elements) == multiset(r.elements)
  }

  /** Coverage: whatever the draws, every link is in order; and if no stone overruns, a request for n
      stones is forwarded exactly n times and then reaches the fetch branch with the requested name,
      and every stone of the list is visited exactly as often as it is listed. */
  lemma {:induction false} ChainCoverage(names: Names, r: Request, draws: nat -> nat, hop: nat)
    requires Consistent(r) && r.elements != []
    ensures var t := Travel(names, r, draws, hop);
      && |t.visited| == |t.links| <= |r.elements|
      && (forall k: nat | k < |t.links| :: LinkOk(r, t, k))
      && (t.fetched.Some? ==> t.fetched.value == r.fName && |t.links| == |r.elements| && multiset(t.visited) == multiset(r.elements))
    decreases |r.elements|
  {
    var pass := Pass(r, draws(hop));
    WithoutPermutes(r.elements, draws(hop) % |r.elements|);
    match StoneStep(names(pass.to), pass.request, draws(hop + 1))
    case Fetch(name) => AddHop(r, pass.to, pass.request, Trip([], [], Some(name)));
    case Overrun => AddHop(r, pass.to, pass.request, Trip([], [], None));
    case Forward(_, _) =>
      var rest := Travel(names, pass.request, draws, hop + 1);
      ChainCoverage(names, pass.request, draws, hop + 1);
      AddHop(r, pass.to, pass.request, rest);
  }

  lemma AddHop(r: Request, to: Element, next: Request, rest: Trip)
    requires Consistent(next) && next.fName == r.fName && |next.elements| == |r.elements| - 1
    requires multiset(next.elements) + multiset{to} == multiset(r.elements)
    requires |rest.visited| == |rest.links| && forall k: nat | k < |rest.links| :: LinkOk(next, rest, k)
    ensures var t := Trip([to] + rest.visited, [next] + rest.links, rest.fetched);
      forall k: nat | k < |t.links| :: LinkOk(r, t, k)
  {
    var t := Trip([to] + rest.visited, [next] + rest.links, rest.fetched);
    forall k: nat | k < |t.links| ensures LinkOk(r, t, k) {
      assert t.visited[..k + 1] == [to] + rest.visited[..k];
      if k > 0 {
        assert LinkOk(next, rest, k - 1) && t.links[k] == rest.links[k - 1];
      }
    }
  }

  // ---------------------------------------------------------------- which requests get through

  /** The total width of a list. */
  function Total(list: seq<Element>): nat {
    if list == [] then 0 else Width(list[0]) + Total(list[1..])
  }

  lemma {:induction false} TotalAppend(a: seq<Element>, b: seq<Element>)
    ensures Total(a + b) == Total(a) + Total(b)
  {
    if a == [] {
      assert a + b == b;
    } else {
      assert (a + b)[1..] == a[1..] + b;
      TotalAppend(a[1..], b);
    }
  }

  lemma {:induction false} TotalWithout(list: seq<Element>, i: nat)
    requires i < |list|
    ensures Total(Without(list, i)) == Total(list) - Width(list[i])
  {
    if i == 0 {
      assert Without(list, 0) == list[1..];
    } else {
      var rest := Without(list[1..], i - 1);
      assert Without(list, i) == [list[0]] + rest && ([list[0]] + rest)[1..] == rest;
      TotalWithout(list[1..], i - 1);
    }
  }

  lemma {:induction false} ListedLength(list: seq<Element>, n: nat)
    requires n <= |list|
    ensures |ListedAll(list, n)| == Total(list[..n])
  {
    if n > 0 {
      ListedLength(list, n - 1);
      assert list[..n] == list[..n - 1] + [list[n - 1]];
      TotalAppend(list[..n - 1], [list[n - 1]]);
    }
  }

  lemma PrintedLength(me: Element, fName: string, list: seq<Element>, next: Element)
    ensures |Printed(me, fName, list, next)| == 66 + |me.host| + |me.port| + |fName| + Total(list) + Width(next)
  {
    ListedLength(list, |list|);
    assert list[..|list|] == list;
  }

  /** One check before the request goes out: whichever stone is drawn first and whichever second, the
      first one's list and text fit. */
  ghost predicate Roomy(names: Names, r: Request) {
    forall i: nat, j: nat | i < |r.elements| && j < |r.elements| && i != j :: FirstFits(names, r, i, j)
  }

  predicate FirstFits(names: Names, r: Request, i: nat, j: nat)
    requires i < |r.elements| && j < |r.elements|
  {
    Fits(names(r.elements[i]), r.fName, Without(r.elements, i), r.elements[j])
  }

  /** Where an element of the shorter list was in the longer one. */
  function Before(i: nat, k: nat): nat {
    if k < i then k else k + 1
  }

  /** What a later stone has to print is shorter than what it would have had to print first. */
  lemma LaterFits(names: Names, r: Request, draw: nat, i: nat, j: nat)
    requires Consistent(r) && r.elements != [] && Roomy(names, r)
    requires i < |r.elements| - 1 && j < |r.elements| - 1 && i != j
    ensures FirstFits(names, Pass(r, draw).request, i, j)
  {
    var d := draw % |r.elements|;
    var list := Without(r.elements, d);
    var a, b := Before(d, i), Before(d, j);
    assert list[i] == r.elements[a] && list[j] == r.elements[b] && a != b;
    assert FirstFits(names, r, a, b);
    TotalWithout(r.elements, a);
    TotalWithout(r.elements, d);
    TotalWithout(list, i);
    PrintedLength(names(list[i]), r.fName, Without(r.elements, a), r.elements[b]);
    PrintedLength(names(list[i]), r.fName, Without(list, i), list[j]);
  }

  /** The stone drawn does not overrun, and the check holds of what it passes on. */
  lemma RoomyStep(names: Names, r: Request, draw: nat, next: nat)
    requires Consistent(r) && r.elements != [] && Roomy(names, r)
    ensures var pass := Pass(r, draw);
      !StoneStep(names(pass.to), pass.request, next).Overrun? && Roomy(names, pass.request)
  {
    var pass, d := Pass(r, draw), draw % |r.elements|;
    var list := pass.request.elements;
    if list != [] {
      var k := next % |list|;
      assert list[k] == r.elements[Before(d, k)];
      assert FirstFits(names, r, d, Before(d, k));
    }
    forall i: nat, j: nat | i < |list| && j < |list| && i != j ensures FirstFits(names, pass.request, i, j) {
      LaterFits(names, r, draw, i, j);
    }
  }

  /** With the drawn stone taken off, the list has at most 1024 elements, and the fixed text, the stone's
      own name, the requested name, the list and the stone drawn next, each element with six characters
      around it, are shorter than 8192 characters. */
  predicate FitsInNumbers(me: Element, fName: string, rest: seq<Element>, next: Element) {
    && |rest| <= 1024
    && 66 + |me.host| + |me.port| + |fName| + Characters(rest) + 6 * |rest| + |next.host| + |next.port| + 6 < 8192
  }

  /** The check in numbers. */
  lemma RoomyIff(names: Names, r: Request)
    ensures Roomy(names, r) <==>
      forall i: nat, j: nat | i < |r.elements| && j < |r.elements| && i != j ::
        FitsInNumbers(names(r.elements[i]), r.fName, Without(r.elements, i), r.elements[j])
  {
    forall i: nat, j: nat | i < |r.elements| && j < |r.elements| && i != j
      ensures FirstFits(names, r, i, j) <==> FitsInNumbers(names(r.elements[i]), r.fName, Without(r.elements, i), r.elements[j])
    {
      PrintedLength(names(r.elements[i]), r.fName, Without(r.elements, i), r.elements[j]);
      TotalIs(Without(r.elements, i));
    }
    if Roomy(names, r) {
      forall i: nat, j: nat | i < |r.elements| && j < |r.elements| && i != j
        ensures FitsInNumbers(names(r.elements[i]), r.fName, Without(r.elements, i), r.elements[j])
      {
        assert FirstFits(names, r, i, j);
      }
    }
  }

  /** All hosts and ports together. */
  function Characters(list: seq<Element>): nat {
    if list == [] then 0 else |list[0].host| + |list[0].port| + Characters(list[1..])
  }

  lemma {:induction false} TotalIs(list: seq<Element>)
    ensures Total(list) == Characters(list) + 6 * |list|
  {
    if list != [] {
      TotalIs(list[1..]);
    }
  }

  lemma {:induction false} RoomyGetsThrough(names: Names, r: Request, draws: nat -> nat, hop: nat)
    requires Consistent(r) && r.elements != [] && Roomy(names, r)
    ensures Travel(names, r, draws, hop).fetched == Some(r.fName)
    decreases |r.elements|
  {
    var pass := Pass(r, draws(hop));
    RoomyStep(names, r, draws(hop), draws(hop + 1));
    if StoneStep(names(pass.to), pass.request, draws(hop + 1)).Forward? {
      RoomyGetsThrough(names, pass.request, draws, hop + 1);
    }
  }

  /** A request reaches the fetch branch whatever the draws if and only if the check holds of the list
      it starts with: later stones have less to print. */
  lemma GetsThroughIff(names: Names, r: Request)
    requires Consistent(r) && r.elements != []
    ensures (forall draws: nat -> nat :: Travel(names, r, draws, 0).fetched == Some(r.fName)) <==> Roomy(names, r)
  {
    if Roomy(names, r) {
      forall draws: nat -> nat ensures Travel(names, r, draws, 0).fetched == Some(r.fName) {
        RoomyGetsThrough(names, r, draws, 0);
      }
    } else {
      var i: nat, j: nat :| i < |r.elements| && j < |r.elements| && i != j && !FirstFits(names, r, i, j);
      var k: nat := if j < i then j else j - 1;
      var draws := n => if n == 0 then i else k;
      FirstOverruns(names, r, i, j, k, draws);
    }
  }

  lemma OverrunsIf(me: Element, r: Request, k: nat)
    requires Consistent(r) && k < |r.elements| && k % |r.elements| == k && !Fits(me, r.fName, r.elements, r.elements[k])
    ensures StoneStep(me, r, k) == Overrun
  {
  }

  lemma TravelEnds(names: Names, r: Request, draws: nat -> nat)
    requires Consistent(r) && r.elements != []
    requires var pass := Pass(r, draws(0)); StoneStep(names(pass.to), pass.request, draws(1)) == Overrun
    ensures Travel(names, r, draws, 0).fetched == None
  {
  }

  lemma FirstOverruns(names: Names, r: Request, i: nat, j: nat, k: nat, draws: nat -> nat)
    requires Consistent(r) && i < |r.elements| && j < |r.elements| && i != j && !FirstFits(names, r, i, j)
    requires draws(0) == i && draws(1) == k && k == if j < i then j else j - 1
    ensures Travel(names, r, draws, 0).fetched == None
  {
    SmallModulo(i, |r.elements|);
    SmallModulo(k, |r.elements| - 1);
    var pass := Pass(r, draws(0));
    assert pass.to == r.elements[i] && pass.request.elements == Without(r.elements, i);
    assert pass.request.elements[k] == r.elements[j];
    OverrunsIf(names(pass.to), pass.request, k);
    TravelEnds(names, r, draws);
  }

  // ---------------------------------------------------------------- the chain file

  /** The place after the last `c`, as `strrchr(s, c) + 1`; 0 when there is none. */
  function AfterLast(s: string, c: char): (i: nat)
    ensures i <= |s| && c !in s[i..] && (i > 0 ==> s[i - 1] == c)
  {
    if s == "" then 0
    else if s[|s| - 1] == c then |s|
    else
      var i := AfterLast(s[..|s| - 1], c);
      assert s[i..] == s[..|s| - 1][i..] + [s[|s| - 1]];
      i
  }

  /** `strncpy` into a field: at most `room` characters. */
  function Fit(s: string, room: nat): string {
    if |s| <= room then s else s[..room]
  }

  /** One line of the chain file. The last character is cut off; the port is what follows the last
      blank and the host what precedes the first comma, where the port ends too if the comma comes
      that late. When the line ends in a blank it is that blank that is cut off, and the port is
      empty. None when the program goes through a null pointer: the line has no blank, or no comma
      before its last character. */
  function ParseLine(line: string): Option<Element> {
    var at := AfterLast(line, ' ');
    if at == 0 then None
    else
      var text := line[..|line| - 1];
      var comma := FirstOf(text, ',');
      var port := if at == |line| then "" else if at <= comma then text[at..comma] else text[at..];
      if comma == |text| then None else Some(Element(Fit(text[..comma], 256), Fit(port, 8)))
  }

  /** `field` holds as much of the text as there is room for. */
  predicate HoldsUpTo(field: string, text: string, room: nat) {
    field <= text && |field| == if |text| <= room then |text| else room
  }

  predicate ReadAs(line: string, host: string, port: string) {
    var r := ParseLine(line);
    r.Some? && HoldsUpTo(r.value.host, host, 256) && HoldsUpTo(r.value.port, port, 8)
  }

  lemma ReadWhole(line: string, host: string, port: string)
    requires ReadAs(line, host, port)
    ensures |host| <= 256 && |port| <= 8 ==> ParseLine(line) == Some(Element(host, port))
  {
    var e := ParseLine(line).value;
    assert |host| <= 256 ==> e.host == host;
    assert |port| <= 8 ==> e.port == port;
  }

  /** A line is read unless it has no blank, or no comma before its last character. */
  lemma ReadableIff(line: string)
    ensures ParseLine(line).Some? <==> ' ' in line && ',' in line[..|line| - 1]
  {
    var at := AfterLast(line, ' ');
    assert at == 0 ==> line[0..] == line;
    assert at > 0 ==> line[at - 1] == ' ';
  }

  /** What is read when the last blank comes after the first comma: the host before that comma, and
      behind that blank everything but the last character as the port. */
  lemma BlankBehindComma(host: string, middle: string, port: string, last: char)
    requires ',' !in host && ' ' !in port && last != ' '
    ensures ReadAs(host + "," + middle + " " + port + [last], host, port)
  {
    var line := host + "," + middle + " " + port + [last];
    var text := line[..|line| - 1];
    var at := |host| + |middle| + 2;
    assert line[|host|] == ',' && line[at - 1] == ' ' && line[at..] == port + [last];
    assert text[..|host|] == host && text[at..] == port;
    FirstIs(text, ',', |host|);
    LastIs(line, ' ', at);
  }

  /** When it comes before, the host holds that blank, and the port is what is between it and the
      comma. */
  lemma BlankBeforeComma(before: string, port: string, behind: string, last: char)
    requires ',' !in before && ',' !in port && ' ' !in port && ' ' !in behind && last != ' '
    ensures ReadAs(before + " " + port + "," + behind + [last], before + " " + port, port)
  {
    var line := before + " " + port + "," + behind + [last];
    var text := line[..|line| - 1];
    var at, comma := |before| + 1, |before| + 1 + |port|;
    assert line[at - 1] == ' ' && line[at..] == port + "," + behind + [last] && text[comma] == ',';
    assert text[..comma] == before + " " + port && text[at..comma] == port;
    FirstIs(text, ',', comma);
    LastIs(line, ' ', at);
  }

  /** When the line ends in a blank, that is cut off and the port is empty. */
  lemma BlankAtEnd(host: string, rest: string)
    requires ',' !in host
    ensures ReadAs(host + "," + rest + " ", host, "")
  {
    var line := host + "," + rest + " ";
    var text := line[..|line| - 1];
    assert line[|host|] == ',' && line[|line| - 1] == ' ' && text[..|host|] == host;
    FirstIs(text, ',', |host|);
    LastIs(line, ' ', |line|);
  }

  /** A line in the documented form: host, comma, at least one blank, port, newline. */
  function Line(host: string, blanks: nat, port: string): string {
    host + "," + seq(blanks, _ => ' ') + port + "\n"
  }

  /** A documented line is read as its host and port, whole if they fit the 256 and 8 bytes of their
      fields and cut to them otherwise. */
  lemma DocumentedLineIsRead(host: string, blanks: nat, port: string)
    requires ',' !in host && ' ' !in port && blanks >= 1
    ensures ReadAs(Line(host, blanks, port), host, port)
    ensures |host| <= 256 && |port| <= 8 ==> ParseLine(Line(host, blanks, port)) == Some(Element(host, port))
  {
    var middle := seq(blanks - 1, _ => ' ');
    assert seq(blanks, _ => ' ') == middle + " ";
    assert Line(host, blanks, port) == host + "," + middle + " " + port + ['\n'];
    BlankBehindComma(host, middle, port, '\n');
    ReadWhole(Line(host, blanks, port), host, port);
  }

  lemma FirstIs(s: string, c: char, i: nat)
    requires i < |s| && s[i] == c && c !in s[..i]
    ensures FirstOf(s, c) == i
  {
  }

  lemma LastIs(s: string, c: char, i: nat)
    requires 0 < i <= |s| && s[i - 1] == c && c !in s[i..]
    ensures AfterLast(s, c) == i
  {
  }

  /** How packing ends: complete, with the error for a short file, or in undefined behaviour. */
  datatype Packing = Packed | TooShort | BadPointer

  ghost predicate AllRead(lines: seq<string>, n: nat) {
    n <= |lines| && forall i | 0 <= i < n :: ParseLine(lines[i]).Some?
  }

  /** The packing loop: one line per element, stopping at the first that is missing or unreadable. */
  method PackElements(lines: seq<string>, lSize: nat, elements: array<Element>) returns (r: Packing)
    requires lSize <= elements.Length
    modifies elements
    ensures r == Packed <==> AllRead(lines, lSize)
    ensures r == TooShort <==> |lines| < lSize && AllRead(lines, |lines|)
    ensures r == Packed ==> forall i | 0 <= i < lSize :: ParseLine(lines[i]) == Some(elements[i])
  {
    for c := 0 to lSize
      invariant AllRead(lines, c)
      invariant forall i | 0 <= i < c :: ParseLine(lines[i]) == Some(elements[i])
    {
      if c >= |lines| {
        return TooShort;
      }
      var parsed := ParseLine(lines[c]);
      if parsed.None? {
        return BadPointer;
      }
      elements[c] := parsed.value;
    }
    return Packed;
  }
}
