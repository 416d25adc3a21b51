/** What a screen shows of a running job: lines the engine has handed over, and
    after them lines the event stream has said since. Lines are told by their
    place in the job's whole history, so that equal texts are not taken for one. */
module LiveTail {
  import opened Prelude
  import opened JobLog

  /** An answer of the log store, as places: see JobLog.Answer. */
  datatype Page = Page(lines: seq<nat>, next: nat, reset: bool)

  /** A request under way: the cursor and the number of heard lines noted when it
      went out, its answer once the engine has made it, and, for the model only,
      the lines delivered since. */
  datatype Request = Request(cursor: nat, heardBefore: nat, since: seq<nat>, page: Option<Page>)

  /** `said` lines are recorded; `stream` are those on their way to the screen. */
  datatype State = State(
    said: nat,
    stream: seq<nat>,
    confirmed: seq<nat>,
    heard: seq<nat>,
    cursor: nat,
    requests: seq<Request>)

  datatype Step = Say | Deliver | Lose | Ask | Serve(k: nat) | Arrive(k: nat) | Fail(k: nat)

  function Places(from: int, to: int): (r: seq<nat>)
    requires 0 <= from <= to
    ensures |r| == to - from && forall i :: 0 <= i < |r| ==> r[i] == from + i
  {
    seq(to - from, i requires 0 <= i < to - from => from + i)
  }

  function Asked(said: nat, after: nat): Page {
    var oldest := if said < MaxLogLines then 0 else said - MaxLogLines;
    if after >= said then Page([], said, false)
    else if after <= oldest then Page(Places(oldest, said), said, true)
    else Page(Places(after, said), said, false)
  }

  /** The answer by places is the answer of the log store: the newest lines, as
      many, and the places they stand at. */
  lemma AskedIsAnswer(said: seq<LogLine>, after: nat)
    ensures var p, v := Asked(|said|, after), Answer(said, after);
            p.next == v.next && p.reset == v.reset && |p.lines| == |v.lines| <= |said|
    ensures Answer(said, after).lines == said[|said| - |Answer(said, after).lines|..]
    ensures EndsAt(Asked(|said|, after).lines, |said|)
  {
  }

  predicate Enabled(s: State, a: Step) {
    match a
    case Say => true
    case Deliver => s.stream != []
    case Lose => s.stream != []
    case Ask => true
    case Serve(k) => k < |s.requests| && s.requests[k].page.None?
    case Arrive(k) => k < |s.requests| && s.requests[k].page.Some?
    case Fail(k) => k < |s.requests|
  }

  /** What is left of the heard lines when the first `heardBefore` are dropped. */
  function Later(heard: seq<nat>, heardBefore: nat): seq<nat> {
    if heardBefore <= |heard| then heard[heardBefore..] else []
  }

  /** The tail after an answer: with nothing new only the cursor moves. */
  function Applied(s: State, page: Page, heardBefore: nat): State {
    if page.lines == [] && !page.reset then s.(cursor := if s.cursor < page.next then page.next else s.cursor)
    else s.(confirmed := Last(if page.reset then page.lines else s.confirmed + page.lines, MaxLogLines),
            heard := Later(s.heard, heardBefore),
            cursor := page.next)
  }

  function Heard(r: Request, place: nat): Request {
    r.(since := r.since + [place])
  }

  function AllHeard(requests: seq<Request>, place: nat): (r: seq<Request>)
    ensures |r| == |requests| && forall i :: 0 <= i < |r| ==> r[i] == Heard(requests[i], place)
  {
    seq(|requests|, i requires 0 <= i < |requests| => Heard(requests[i], place))
  }

  function Without<T>(s: seq<T>, k: nat): seq<T>
    requires k < |s|
  {
    s[..k] + s[k + 1..]
  }

  function Delivered(s: State): (t: State)
    requires s.stream != []
  {
    var place := s.stream[0];
    s.(stream := s.stream[1..], heard := Last(s.heard + [place], MaxLogLines), requests := AllHeard(s.requests, place))
  }

  function Apply(s: State, a: Step): State
    requires Enabled(s, a)
  {
    match a
    case Say => s.(said := s.said + 1, stream := s.stream + [s.said])
    case Deliver => Delivered(s)
    case Lose => s.(stream := s.stream[1..])
    case Ask => s.(requests := s.requests + [Request(s.cursor, |s.heard|, [], None)])
    case Serve(k) =>
      var r := s.requests[k];
      s.(requests := s.requests[k := r.(page := Some(Asked(s.said, r.cursor)))])
    case Arrive(k) =>
      var r := s.requests[k];
      Applied(s.(requests := Without(s.requests, k)), r.page.value, r.heardBefore)
    case Fail(k) => s.(requests := Without(s.requests, k))
  }

  const Fresh: State := State(0, [], [], [], 0, [])

  function After(start: State, run: seq<Step>): Option<State> {
    if run == [] then Some(start)
    else
      match After(start, run[..|run| - 1])
      case Some(s) => if Enabled(s, run[|run| - 1]) then Some(Apply(s, run[|run| - 1])) else None
      case None => None
  }

  /** A line that is delivered is heard, and one that is lost is not. */
  lemma WhatTheStreamDoes(s: State)
    requires s.stream != []
    ensures Apply(s, Deliver).stream == Apply(s, Lose).stream == s.stream[1..]
    ensures Apply(s, Lose).heard == s.heard && Apply(s, Deliver).heard != [] && Apply(s, Deliver).heard[|Apply(s, Deliver).heard| - 1] == s.stream[0]
    ensures |s.heard| < 10_000 ==> Apply(s, Deliver).heard == s.heard + [s.stream[0]]
    ensures |s.heard| == 10_000 ==> Apply(s, Deliver).heard == s.heard[1..] + [s.stream[0]]
  {
  }

  /** What the screen draws: the two parts joined, and of that the newest lines. */
  function Shown(s: State): seq<nat> {
    Last(s.confirmed + s.heard, MaxLogLines)
  }

  /** Every line once, and in the order they were said. */
  ghost predicate InOrder(places: seq<nat>) {
    forall i, j :: 0 <= i < j < |places| ==> places[i] < places[j]
  }

  // ------------------------------------------------ one request under way at a time

  /** No request goes out while another is under way. */
  predicate OneAtATime(start: State, run: seq<Step>) {
    run == []
    || (OneAtATime(start, run[..|run| - 1])
        && match After(start, run[..|run| - 1]) case Some(s) => run[|run| - 1].Ask? ==> s.requests == [] case None => true)
  }

  /** What is confirmed is one unbroken stretch that ends at the cursor, as long as the
      cap allows. */
  ghost predicate Sound(s: State) {
    s.cursor <= s.said && EndsAt(s.confirmed, s.cursor) && |s.confirmed| == (if s.cursor < 10_000 then s.cursor else 10_000)
  }

  ghost predicate EndsAt(places: seq<nat>, end: nat) {
    |places| <= end && places == Places(end - |places|, end)
  }

  /** What was heard, then what is on its way, then whatever is said next. */
  ghost predicate StreamInOrder(s: State) {
    InOrder(s.heard + (s.stream + [s.said]))
  }

  /** How many heard lines the cap leaves room for beside those heard before. */
  function Room(heardBefore: nat): nat {
    if heardBefore < MaxLogLines then MaxLogLines - heardBefore else 0
  }

  /** What is left of the heard lines without the first `heardBefore` is the newest
      of those delivered since, as many as the cap leaves room for. */
  ghost predicate HeardSince(heard: seq<nat>, heardBefore: nat, since: seq<nat>) {
    && heardBefore <= |heard| <= MaxLogLines
    && (|heard| == MaxLogLines || |heard| == heardBefore + |since|)
    && Later(heard, heardBefore) == Last(since, Room(heardBefore))
  }

  /** A request's answer is one the log store gave to its cursor; and what its
      arrival will leave of the heard lines was delivered since it went out. */
  ghost predicate RequestIsHonest(s: State, r: Request) {
    && r.cursor == s.cursor
    && HeardSince(s.heard, r.heardBefore, r.since)
    && (r.page.Some? ==> r.page.value.next <= s.said && r.page.value == Asked(r.page.value.next, r.cursor) && r.cursor <= r.page.value.next)
  }

  ghost predicate Inv(s: State) {
    Sound(s) && StreamInOrder(s) && AllHonest(s)
  }

  /** No line that has been handed over is still among those heard since. */
  ghost predicate NoneTwice(s: State) {
    NoneBelow(s.heard, s.cursor)
  }

  ghost predicate NoneBelow(places: seq<nat>, least: nat) {
    forall p :: p in places ==> least <= p
  }

  lemma LastEndsAt(places: seq<nat>, end: nat, k: nat)
    requires EndsAt(places, end)
    ensures EndsAt(Last(places, k), end)
  {
    var r := Last(places, k);
    assert forall i :: 0 <= i < |r| ==> r[i] == places[|places| - |r| + i];
  }

  lemma MoreEndsAt(places: seq<nat>, mid: nat, end: nat)
    requires EndsAt(places, mid) && mid <= end
    ensures EndsAt(places + Places(mid, end), end)
  {
  }

  lemma ArrivalKeepsSound(s: State, page: Page, heardBefore: nat)
    requires Sound(s) && s.cursor <= page.next <= s.said && page == Asked(page.next, s.cursor)
    ensures Sound(Applied(s, page, heardBefore))
  {
    if s.cursor < page.next {
      if page.reset {
        LastEndsAt(page.lines, page.next, MaxLogLines);
      } else {
        MoreEndsAt(s.confirmed, s.cursor, page.next);
        LastEndsAt(s.confirmed + page.lines, page.next, MaxLogLines);
      }
    }
  }

  lemma LastInOrder(places: seq<nat>, rest: seq<nat>, k: nat)
    requires InOrder(places + rest)
    ensures InOrder(Last(places, k) + rest)
  {
    var a, b := places + rest, Last(places, k) + rest;
    assert forall i :: 0 <= i < |b| ==> b[i] == a[|a| - |b| + i];
  }

  lemma LaterInOrder(heard: seq<nat>, rest: seq<nat>, k: nat)
    requires InOrder(heard + rest)
    ensures InOrder(Later(heard, k) + rest)
  {
    var a, b := heard + rest, Later(heard, k) + rest;
    assert forall i :: 0 <= i < |b| ==> b[i] == a[|a| - |b| + i];
  }

  lemma StreamStaysInOrder(s: State, a: Step)
    requires StreamInOrder(s) && Enabled(s, a)
    ensures StreamInOrder(Apply(s, a))
  {
    match a
    case Say =>
      OneMoreSaid(s.heard + (s.stream + [s.said]), s.said);
      assert s.heard + ((s.stream + [s.said]) + [s.said + 1]) == s.heard + (s.stream + [s.said]) + [s.said + 1];
    case Deliver =>
      var rest := s.stream[1..] + [s.said];
      assert s.heard + (s.stream + [s.said]) == (s.heard + [s.stream[0]]) + rest;
      LastInOrder(s.heard + [s.stream[0]], rest, MaxLogLines);
    case Lose =>
      assert s.stream + [s.said] == [s.stream[0]] + (s.stream[1..] + [s.said]);
      OneLostInOrder(s.heard, s.stream[0], s.stream[1..] + [s.said]);
    case Arrive(k) => LaterInOrder(s.heard, s.stream + [s.said], s.requests[k].heardBefore);
    case _ =>
  }

  lemma OneLostInOrder(heard: seq<nat>, lost: nat, rest: seq<nat>)
    requires InOrder(heard + ([lost] + rest))
    ensures InOrder(heard + rest)
  {
    var x, y, h := heard + ([lost] + rest), heard + rest, |heard|;
    forall i, j | 0 <= i < j < |y| ensures y[i] < y[j] {
      assert y[i] == x[if i < h then i else i + 1] && y[j] == x[if j < h then j else j + 1];
    }
  }

  lemma OneMoreSaid(places: seq<nat>, said: nat)
    requires InOrder(places) && places != [] && places[|places| - 1] == said
    ensures InOrder(places + [said + 1])
  {
    forall i | 0 <= i < |places| ensures places[i] < said + 1 {
      assert i < |places| - 1 ==> places[i] < places[|places| - 1];
    }
  }

  /** The newest k, one by one: the oldest goes when there are k already. */
  lemma NewestGrow(since: seq<nat>, place: nat, k: nat)
    ensures |since| < k ==> Last(since + [place], k) == Last(since, k) + [place]
    ensures 0 < k <= |since| ==> Last(since + [place], k) == Last(since, k)[1..] + [place]
  {
    if 0 < k {
      LastGrows(since, place, k);
      var held := Last(since, k) + [place];
      assert k <= |since| ==> held[1..] == Last(since, k)[1..] + [place];
    }
  }

  lemma LaterGrows(heard: seq<nat>, heardBefore: nat, place: nat)
    requires heardBefore <= |heard|
    ensures Later(heard + [place], heardBefore) == Later(heard, heardBefore) + [place]
    ensures heardBefore < |heard| ==> Later((heard + [place])[1..], heardBefore) == Later(heard, heardBefore)[1..] + [place]
  {
  }

  lemma DeliveryBelowTheCap(heard: seq<nat>, heardBefore: nat, since: seq<nat>, place: nat)
    requires HeardSince(heard, heardBefore, since) && |heard| < MaxLogLines
    ensures HeardSince(heard + [place], heardBefore, since + [place])
  {
    NewestGrow(since, place, Room(heardBefore));
    LaterGrows(heard, heardBefore, place);
  }

  lemma DeliveryAtTheCap(heard: seq<nat>, heardBefore: nat, since: seq<nat>, place: nat)
    requires HeardSince(heard, heardBefore, since) && |heard| == MaxLogLines
    ensures HeardSince((heard + [place])[1..], heardBefore, since + [place])
  {
    if heardBefore < MaxLogLines {
      assert |Later(heard, heardBefore)| == Room(heardBefore);
      NewestGrow(since, place, Room(heardBefore));
      LaterGrows(heard, heardBefore, place);
    }
  }

  lemma DeliveryKeepsSince(heard: seq<nat>, heardBefore: nat, since: seq<nat>, place: nat)
    requires HeardSince(heard, heardBefore, since)
    ensures HeardSince(Last(heard + [place], MaxLogLines), heardBefore, since + [place])
  {
    if |heard| < MaxLogLines {
      DeliveryBelowTheCap(heard, heardBefore, since, place);
      assert Last(heard + [place], MaxLogLines) == heard + [place];
    } else {
      DeliveryAtTheCap(heard, heardBefore, since, place);
      assert Last(heard + [place], MaxLogLines) == (heard + [place])[1..];
    }
  }

  lemma RequestStaysHonest(s: State, r: Request)
    requires s.stream != [] && RequestIsHonest(s, r)
    ensures RequestIsHonest(Delivered(s), Heard(r, s.stream[0]))
  {
    var t, q := Delivered(s), Heard(r, s.stream[0]);
    DeliveryKeepsSince(s.heard, r.heardBefore, r.since, s.stream[0]);
    assert q.page == r.page && q.cursor == r.cursor && t.said == s.said && t.cursor == s.cursor;
  }

  ghost predicate AllHonest(s: State) {
    |s.requests| <= 1 && |s.heard| <= MaxLogLines && forall k :: 0 <= k < |s.requests| ==> RequestIsHonest(s, s.requests[k])
  }

  lemma DeliveryKeepsHonest(s: State)
    requires AllHonest(s) && s.stream != []
    ensures AllHonest(Delivered(s))
  {
    var t := Delivered(s);
    forall k | 0 <= k < |t.requests| ensures RequestIsHonest(t, t.requests[k]) {
      RequestStaysHonest(s, s.requests[k]);
      assert t.requests[k] == Heard(s.requests[k], s.stream[0]);
    }
  }

  lemma AskKeepsHonest(s: State)
    requires s.requests == [] && |s.heard| <= MaxLogLines
    ensures AllHonest(Apply(s, Ask))
  {
    assert RequestIsHonest(Apply(s, Ask), Request(s.cursor, |s.heard|, [], None));
  }

  lemma ServeKeepsHonest(s: State, k: nat)
    requires Sound(s) && AllHonest(s) && Enabled(s, Serve(k))
    ensures AllHonest(Apply(s, Serve(k)))
  {
    var r := s.requests[k];
    assert RequestIsHonest(s, r);
    assert RequestIsHonest(Apply(s, Serve(k)), r.(page := Some(Asked(s.said, r.cursor))));
  }

  lemma WithoutTheOnly<T>(s: seq<T>, k: nat)
    requires k < |s| <= 1
    ensures Without(s, k) == []
  {
  }

  /** The one request that was under way is gone. */
  lemma NoneIsLeft(s: State, a: Step)
    requires |s.requests| <= 1 && |s.heard| <= MaxLogLines && Enabled(s, a) && (a.Arrive? || a.Fail?)
    ensures Apply(s, a).requests == [] && |Apply(s, a).heard| <= MaxLogLines
  {
    WithoutTheOnly(s.requests, a.k);
    if a.Arrive? {
      assert |Later(s.heard, s.requests[a.k].heardBefore)| <= |s.heard|;
    }
  }

  lemma SayOrLoseKeepsHonest(s: State, a: Step)
    requires AllHonest(s) && Enabled(s, a) && (a.Say? || a.Lose?)
    ensures AllHonest(Apply(s, a))
  {
    var t := Apply(s, a);
    forall k | 0 <= k < |t.requests| ensures RequestIsHonest(t, t.requests[k]) {
      assert RequestIsHonest(s, s.requests[k]);
    }
  }

  lemma RequestsStayHonest(s: State, a: Step)
    requires Sound(s) && AllHonest(s) && Enabled(s, a) && (a.Ask? ==> s.requests == [])
    ensures AllHonest(Apply(s, a))
  {
    match a
    case Deliver => DeliveryKeepsHonest(s);
    case Ask => AskKeepsHonest(s);
    case Serve(k) => ServeKeepsHonest(s, k);
    case Arrive(_) => NoneIsLeft(s, a);
    case Fail(_) => NoneIsLeft(s, a);
    case Say => SayOrLoseKeepsHonest(s, a);
    case Lose => SayOrLoseKeepsHonest(s, a);
  }

  lemma InvIsKept(s: State, a: Step)
    requires Inv(s) && Enabled(s, a) && (a.Ask? ==> s.requests == [])
    ensures Inv(Apply(s, a))
  {
    StreamStaysInOrder(s, a);
    RequestsStayHonest(s, a);
    if a.Arrive? {
      var r := s.requests[a.k];
      ArrivalKeepsSound(s.(requests := Without(s.requests, a.k)), r.page.value, r.heardBefore);
    }
  }

  /** With one request at a time, in every run, however many lines are said,
      delivered or lost meanwhile: what is confirmed is an unbroken stretch of the
      history that ends at the cursor. */
  lemma {:induction false} ConfirmedIsAStretch(run: seq<Step>)
    requires After(Fresh, run).Some? && OneAtATime(Fresh, run)
    ensures Inv(After(Fresh, run).value)
  {
    if run != [] {
      ConfirmedIsAStretch(run[..|run| - 1]);
      InvIsKept(After(Fresh, run[..|run| - 1]).value, run[|run| - 1]);
    }
  }

  /** Then the screen shows every line once and in order exactly when none that was
      handed over is still among those heard, or those heard fill the screen. */
  lemma ShownInOrder(s: State)
    requires Inv(s)
    ensures InOrder(Shown(s)) <==> NoneTwice(s) || |s.heard| == MaxLogLines
  {
    HeardInOrder(s);
    var all := s.confirmed + s.heard;
    if |s.heard| == MaxLogLines {
      assert Shown(s) == s.heard;
    } else if NoneTwice(s) {
      JoinedInOrder(s);
      EndInOrder(all, MaxLogLines);
    } else {
      OutOfOrder(s);
    }
  }

  lemma HeardInOrder(s: State)
    requires Inv(s)
    ensures InOrder(s.heard) && |s.heard| <= MaxLogLines
  {
    var all := s.heard + (s.stream + [s.said]);
    assert forall i :: 0 <= i < |s.heard| ==> s.heard[i] == all[i];
  }

  lemma JoinedInOrder(s: State)
    requires Inv(s) && NoneTwice(s)
    ensures InOrder(s.confirmed + s.heard)
  {
    HeardInOrder(s);
    var all, c := s.confirmed + s.heard, |s.confirmed|;
    forall i, j | 0 <= i < j < |all| ensures all[i] < all[j] {
      if i < c <= j {
        assert s.heard[j - c] in s.heard;
      }
    }
  }

  lemma EndInOrder(places: seq<nat>, k: nat)
    requires InOrder(places)
    ensures InOrder(Last(places, k))
  {
    var r := Last(places, k);
    assert forall i :: 0 <= i < |r| ==> r[i] == places[|places| - |r| + i];
  }

  /** The last confirmed line is on the screen, and the one heard is behind it. */
  lemma OutOfOrder(s: State)
    requires Inv(s) && !NoneTwice(s) && |s.heard| < MaxLogLines
    ensures !InOrder(Shown(s))
  {
    var p :| p in s.heard && p < s.cursor;
    var j :| 0 <= j < |s.heard| && s.heard[j] == p;
    OutOfOrderAt(s, j);
  }

  lemma OutOfOrderAt(s: State, j: nat)
    requires Sound(s) && j < |s.heard| < MaxLogLines && s.heard[j] < s.cursor
    ensures !InOrder(Shown(s))
  {
    DrawnParts(s);
    BehindTheLast(s.cursor - Drawn(s), s.cursor, s.heard, j);
  }

  lemma BehindTheLast(lo: nat, hi: nat, heard: seq<nat>, j: nat)
    requires lo < hi && j < |heard| && heard[j] < hi
    ensures !InOrder(Places(lo, hi) + heard)
  {
    var r, n := Places(lo, hi) + heard, hi - lo;
    assert r[n - 1] == hi - 1 && r[n + j] == heard[j];
  }

  /** How many of the confirmed lines the screen has room for. */
  function Drawn(s: State): nat {
    if |s.heard| >= MaxLogLines then 0
    else if |s.confirmed| + |s.heard| <= MaxLogLines then |s.confirmed|
    else MaxLogLines - |s.heard|
  }

  ghost predicate Repeats(places: seq<nat>) {
    exists i, j :: 0 <= i < j < |places| && places[i] == places[j]
  }

  /** And a line is drawn twice exactly when one that is heard is among the confirmed
      lines that are drawn. */
  lemma WhenALineIsDrawnTwice(s: State)
    requires Inv(s)
    ensures Repeats(Shown(s)) <==> exists p :: p in s.heard && s.cursor - Drawn(s) <= p < s.cursor
  {
    HeardInOrder(s);
    DrawnParts(s);
    RepeatsInBoth(s.cursor - Drawn(s), s.cursor, s.heard);
  }

  lemma RepeatsInBoth(lo: nat, hi: nat, heard: seq<nat>)
    requires lo <= hi && InOrder(heard)
    ensures Repeats(Places(lo, hi) + heard) <==> exists p :: p in heard && lo <= p < hi
  {
    var r, n := Places(lo, hi) + heard, hi - lo;
    if Repeats(r) {
      var i, j :| 0 <= i < j < |r| && r[i] == r[j];
      assert i < n <= j;
      assert r[j] == heard[j - n] && heard[j - n] in heard;
    }
    if p :| p in heard && lo <= p < hi {
      var j :| 0 <= j < |heard| && heard[j] == p;
      assert r[p - lo] == p && r[n + j] == p;
    }
  }

  lemma DrawnParts(s: State)
    requires Sound(s) && |s.heard| <= MaxLogLines
    ensures Drawn(s) <= s.cursor && Shown(s) == Places(s.cursor - Drawn(s), s.cursor) + s.heard
  {
    var r, n, c := Shown(s), Drawn(s), |s.confirmed|;
    assert |r| == n + |s.heard|;
    forall i | 0 <= i < |r| ensures r[i] == (Places(s.cursor - n, s.cursor) + s.heard)[i] {
      assert r[i] == (s.confirmed + s.heard)[c - n + i];
    }
  }

  // -------------------------------------------------------- when a line shows twice

  lemma LastHolds(s: seq<nat>, place: nat, k: nat)
    requires k > 0
    ensures place in Last(s + [place], k)
    ensures forall p :: p in Last(s + [place], k) ==> p in s || p == place
  {
    var r := Last(s + [place], k);
    assert r[|r| - 1] == place;
    forall p | p in r ensures p in s || p == place {
      assert p in s + [place];
    }
  }

  /** After a delivery the screen is in order exactly when it would be without the cut
      and the line had not been handed over yet, or those heard then fill it. */
  lemma WhenADeliveryRepeats(s: State)
    requires Inv(s) && s.stream != []
    ensures InOrder(Shown(Apply(s, Deliver))) <==>
            (NoneTwice(s) && s.cursor <= s.stream[0]) || |s.heard| + 1 >= MaxLogLines
  {
    var t := Apply(s, Deliver);
    InvIsKept(s, Deliver);
    ShownInOrder(t);
    if |s.heard| + 1 < MaxLogLines {
      OneMoreHeard(s);
    }
  }

  lemma OneMoreBelow(places: seq<nat>, x: nat, least: nat)
    ensures NoneBelow(places + [x], least) <==> NoneBelow(places, least) && least <= x
  {
    var more := places + [x];
    if NoneBelow(more, least) {
      assert more[|places|] in more;
      forall p | p in places ensures least <= p {
        assert p in more;
      }
    }
  }

  lemma OneMoreHeard(s: State)
    requires s.stream != [] && |s.heard| + 1 < MaxLogLines
    ensures NoneTwice(Delivered(s)) <==> NoneTwice(s) && s.cursor <= s.stream[0]
  {
    var more := s.heard + [s.stream[0]];
    assert Last(more, MaxLogLines) == more;
    OneMoreBelow(s.heard, s.stream[0], s.cursor);
  }

  /** An answer with lines drops everything heard before its request. So the screen is
      in order after it exactly when, of the newest delivered since, as many as the cap
      left room for, none was said before the engine answered, or they fill it. */
  lemma WhenAnAnswerRepeats(s: State)
    requires Inv(s) && s.requests != [] && s.requests[0].page.Some? && s.requests[0].page.value.lines != []
    ensures var r := s.requests[0];
            InOrder(Shown(Apply(s, Arrive(0)))) <==>
            (forall p :: p in Last(r.since, Room(r.heardBefore)) ==> r.page.value.next <= p)
            || (r.heardBefore == 0 && |r.since| >= MaxLogLines)
  {
    var r, t := s.requests[0], Apply(s, Arrive(0));
    assert RequestIsHonest(s, r);
    assert t.heard == Last(r.since, Room(r.heardBefore));
    InvIsKept(s, Arrive(0));
    ShownInOrder(t);
  }

  predicate NothingSaid(run: seq<Step>) {
    forall i :: 0 <= i < |run| ==> run[i] != Say
  }

  /** Everything said was handed over, and something of it is still heard. */
  ghost predicate Stuck(s: State) {
    Inv(s) && s.cursor == s.said && s.heard != []
  }

  lemma StuckIsTwice(s: State)
    requires Stuck(s)
    ensures !NoneTwice(s)
    ensures InOrder(Shown(s)) <==> |s.heard| == MaxLogLines
  {
    var all := s.heard + (s.stream + [s.said]);
    assert all[0] < all[|all| - 1];
    assert s.heard[0] in s.heard;
    ShownInOrder(s);
  }

  lemma StuckStaysStuck(s: State, a: Step)
    requires Stuck(s) && Enabled(s, a) && a != Say && (a.Ask? ==> s.requests == [])
    ensures Stuck(Apply(s, a)) && |Apply(s, a).heard| + |Apply(s, a).stream| <= |s.heard| + |s.stream|
  {
    InvIsKept(s, a);
    if a.Arrive? {
      assert RequestIsHonest(s, s.requests[a.k]);
    }
  }

  /** Once the job has said its last and all of it was handed over, a line that was
      heard too is out of place, through any number of polls, whose answers are empty
      and drop nothing, until what is heard fills the screen; so for good, unless what
      is still on its way is enough for that. */
  lemma {:induction false} TwiceForGood(s: State, run: seq<Step>)
    requires Stuck(s) && |s.heard| + |s.stream| < MaxLogLines
    requires NothingSaid(run) && OneAtATime(s, run) && After(s, run).Some?
    ensures var t := After(s, run).value;
            Stuck(t) && |t.heard| + |t.stream| <= |s.heard| + |s.stream| && !InOrder(Shown(t))
  {
    if run != [] {
      TwiceForGood(s, run[..|run| - 1]);
      StuckStaysStuck(After(s, run[..|run| - 1]).value, run[|run| - 1]);
    }
    StuckIsTwice(After(s, run).value);
  }

  function Deliveries(n: nat): seq<Step> {
    seq(n, _ => Deliver)
  }

  /** When it is enough, delivering it puts the screen in order again. */
  lemma EnoughOnItsWay(s: State)
    requires Stuck(s) && |s.heard| + |s.stream| >= MaxLogLines
    ensures var run := Deliveries(MaxLogLines - |s.heard|);
            NothingSaid(run) && OneAtATime(s, run) && After(s, run).Some? && InOrder(Shown(After(s, run).value))
  {
    var n := MaxLogLines - |s.heard|;
    Delivering(s, n);
    StuckIsTwice(After(s, Deliveries(n)).value);
  }

  lemma {:induction false} Delivering(s: State, n: nat)
    requires Stuck(s) && n <= |s.stream| && |s.heard| + n <= MaxLogLines
    ensures NothingSaid(Deliveries(n)) && OneAtATime(s, Deliveries(n)) && After(s, Deliveries(n)).Some?
    ensures var t := After(s, Deliveries(n)).value; Stuck(t) && |t.heard| == |s.heard| + n && |t.stream| == |s.stream| - n
  {
    if n > 0 {
      Delivering(s, n - 1);
      OneDelivery(After(s, Deliveries(n - 1)).value);
      OneMoreDelivery(s, n);
    }
  }

  lemma OneMoreDelivery(s: State, n: nat)
    requires n > 0 && OneAtATime(s, Deliveries(n - 1)) && After(s, Deliveries(n - 1)).Some?
    requires After(s, Deliveries(n - 1)).value.stream != []
    ensures OneAtATime(s, Deliveries(n)) && After(s, Deliveries(n)) == Some(Apply(After(s, Deliveries(n - 1)).value, Deliver))
  {
    var run := Deliveries(n);
    assert run[..|run| - 1] == Deliveries(n - 1) && run[|run| - 1] == Deliver;
  }

  lemma OneDelivery(s: State)
    requires Stuck(s) && s.stream != [] && |s.heard| < MaxLogLines
    ensures var t := Apply(s, Deliver); Stuck(t) && |t.heard| == |s.heard| + 1 && |t.stream| == |s.stream| - 1
  {
    StuckStaysStuck(s, Deliver);
  }

  /** So a repeat is for good exactly when what is heard and what is still on its way
      do not fill the screen together. */
  lemma WhenItIsForGood(s: State)
    requires Stuck(s)
    ensures (forall run :: NothingSaid(run) && OneAtATime(s, run) && After(s, run).Some? ==> !InOrder(Shown(After(s, run).value)))
            <==> |s.heard| + |s.stream| < MaxLogLines
  {
    if |s.heard| + |s.stream| < MaxLogLines {
      forall run | NothingSaid(run) && OneAtATime(s, run) && After(s, run).Some?
        ensures !InOrder(Shown(After(s, run).value))
      {
        TwiceForGood(s, run);
      }
    } else {
      HeardInOrder(s);
      EnoughOnItsWay(s);
    }
  }

  /** It does happen: one line is said and delivered between a request and its
      answer, and it is the last. */
  lemma LastLineCanShowTwice()
    ensures var run := [Ask, Say, Serve(0), Deliver, Arrive(0)];
            After(Fresh, run).Some? && Stuck(After(Fresh, run).value) && Shown(After(Fresh, run).value) == [0, 0]
  {
    var page := Page([0], 1, true);
    var s2 := State(1, [0], [], [], 0, [Request(0, 0, [], None)]);
    var s4 := State(1, [], [], [0], 0, [Request(0, 0, [0], Some(page))]);
    SaidWhileAsked(s2);
    var s3 := State(1, [0], [], [], 0, [Request(0, 0, [], Some(page))]);
    ThenServed(page, s2, s3);
    var r3, r4 := [Ask, Say, Serve(0)], [Ask, Say, Serve(0), Deliver];
    FirstDelivery(page, s3, s4);
    Leads(Fresh, r3, s3, Deliver, s4);
    assert r3 + [Deliver] == r4;
    FirstAnswerArrives(s4, page, State(1, [], [0], [0], 1, []));
    Leads(Fresh, r4, s4, Arrive(0), State(1, [], [0], [0], 1, []));
    assert r4 + [Arrive(0)] == [Ask, Say, Serve(0), Deliver, Arrive(0)];
  }

  lemma SaidWhileAsked(t: State)
    requires t == State(1, [0], [], [], 0, [Request(0, 0, [], None)])
    ensures After(Fresh, [Ask, Say]) == Some(t)
  {
    var s1 := State(0, [], [], [], 0, [Request(0, 0, [], None)]);
    Leads(Fresh, [], Fresh, Ask, s1);
    assert [] + [Ask] == [Ask] && [Ask] + [Say] == [Ask, Say];
    Leads(Fresh, [Ask], s1, Say, t);
  }

  lemma ThenServed(page: Page, s: State, t: State)
    requires page == Page([0], 1, true) && After(Fresh, [Ask, Say]) == Some(s)
    requires s == State(1, [0], [], [], 0, [Request(0, 0, [], None)])
    requires t == State(1, [0], [], [], 0, [Request(0, 0, [], Some(page))])
    ensures After(Fresh, [Ask, Say, Serve(0)]) == Some(t)
  {
    assert Asked(1, 0) == page;
    Leads(Fresh, [Ask, Say], s, Serve(0), t);
    assert [Ask, Say] + [Serve(0)] == [Ask, Say, Serve(0)];
  }

  lemma HeardOnce(r: Request)
    requires r.since == []
    ensures AllHeard([r], 0) == [r.(since := [0])]
  {
    assert Heard(r, 0).since == [0];
  }

  lemma FirstDelivery(page: Page, s: State, t: State)
    requires s == State(1, [0], [], [], 0, [Request(0, 0, [], Some(page))])
    requires t == State(1, [], [], [0], 0, [Request(0, 0, [0], Some(page))])
    ensures Delivered(s) == t
  {
    var r := Request(0, 0, [], Some(page));
    HeardOnce(r);
    var u := Delivered(s);
    assert u.stream == [];
    assert s.heard + [0] == [0];
    assert u.heard == [0];
    assert u.requests == [r.(since := [0])];
  }

  lemma FirstAnswerArrives(s: State, page: Page, t: State)
    requires page == Page([0], 1, true)
    requires s == State(1, [], [], [0], 0, [Request(0, 0, [0], Some(page))]) && t == State(1, [], [0], [0], 1, [])
    ensures Enabled(s, Arrive(0)) && Apply(s, Arrive(0)) == t && Stuck(t)
  {
    assert Without(s.requests, 0) == [];
  }

  lemma Leads(start: State, run: seq<Step>, s: State, a: Step, t: State)
    requires After(start, run) == Some(s) && Enabled(s, a) && Apply(s, a) == t
    ensures After(start, run + [a]) == Some(t)
  {
    assert (run + [a])[..|run + [a]| - 1] == run;
  }

  /** Without the one-at-a-time rule: new lines continue what is confirmed exactly
      when they answer the cursor the screen still has. */
  lemma WhenAnAnswerContinues(confirmed: seq<nat>, cursor: nat, said: nat, asked: nat)
    requires EndsAt(confirmed, cursor) && confirmed != []
    requires asked < said && !Asked(said, asked).reset
    ensures EndsAt(confirmed + Asked(said, asked).lines, said) <==> asked == cursor
  {
    var lines := Asked(said, asked).lines;
    var all, c := confirmed + lines, |confirmed|;
    assert all[c - 1] == cursor - 1 && all[c] == asked;
    if asked == cursor {
      MoreEndsAt(confirmed, cursor, said);
    }
  }

  /** Two requests under way at once hand the same lines over twice: the second
      answer, to the same cursor, no longer continues what the first one left. */
  lemma OverlapRepeats(s: State, heardBefore: nat, again: nat)
    requires Inv(s) && s.requests == [] && 0 < s.cursor < s.said && s.said - s.cursor < MaxLogLines && |s.confirmed| + 2 * (s.said - s.cursor) <= MaxLogLines
    ensures var page := Asked(s.said, s.cursor);
            var t := Applied(Applied(s, page, heardBefore), page, again);
            t.confirmed == s.confirmed + page.lines + page.lines && !InOrder(t.confirmed)
  {
    var page := Asked(s.said, s.cursor);
    var twice := s.confirmed + page.lines + page.lines;
    var c, l := |s.confirmed|, |page.lines|;
    assert twice[c] == s.cursor && twice[c + l] == s.cursor;
  }

  // ------------------------------------------------- such a run, from a fresh screen

  lemma {:induction false} AfterBoth(start: State, run: seq<Step>, more: seq<Step>)
    requires After(start, run).Some?
    ensures After(start, run + more) == After(After(start, run).value, more)
  {
    if more == [] {
      assert run + more == run;
    } else {
      var n := |more| - 1;
      AfterBoth(start, run, more[..n]);
      assert (run + more)[..|run + more| - 1] == run + more[..n];
    }
  }

  lemma Two(s: State, a: Step, m: State, b: Step, t: State)
    requires Enabled(s, a) && Apply(s, a) == m && Enabled(m, b) && Apply(m, b) == t
    ensures After(s, [a, b]) == Some(t)
  {
    assert [] + [a] == [a] && [a] + [b] == [a, b];
    Leads(s, [], s, a, m);
    Leads(s, [a], m, b, t);
  }

  /** A request to a cursor, and one that is answered, with nothing delivered since. */
  function Out(cursor: nat): Request {
    Request(cursor, 0, [], None)
  }

  function In(cursor: nat, page: Page): Request {
    Request(cursor, 0, [], Some(page))
  }

  /** The first line is said and handed over; a second is said, and asked for twice;
      both requests are answered, and both answers arrive. */
  function Overlap(): seq<Step> {
    [Say, Ask] + [Serve(0), Arrive(0)] + ([Say, Ask] + [Ask, Serve(0)]) + ([Serve(1), Arrive(0)] + [Arrive(0)])
  }

  lemma FirstLineConfirmed()
    ensures After(Fresh, [Say, Ask] + [Serve(0), Arrive(0)]) == Some(State(1, [0], [0], [], 1, []))
  {
    var page := Asked(1, 0);
    assert page == Page([0], 1, true);
    var asked := State(1, [0], [], [], 0, [Out(0)]);
    Two(Fresh, Say, State(1, [0], [], [], 0, []), Ask, asked);
    assert Without([In(0, page)], 0) == [];
    Two(asked, Serve(0), State(1, [0], [], [], 0, [In(0, page)]), Arrive(0), State(1, [0], [0], [], 1, []));
    AfterBoth(Fresh, [Say, Ask], [Serve(0), Arrive(0)]);
  }

  lemma SecondLineAskedTwice(s: State, page: Page)
    requires s == State(1, [0], [0], [], 1, []) && page == Asked(2, 1)
    ensures After(s, [Say, Ask] + [Ask, Serve(0)]) == Some(State(2, [0, 1], [0], [], 1, [In(1, page), Out(1)]))
  {
    var once, twice := State(2, [0, 1], [0], [], 1, [Out(1)]), State(2, [0, 1], [0], [], 1, [Out(1), Out(1)]);
    Two(s, Say, State(2, [0, 1], [0], [], 1, []), Ask, once);
    Two(once, Ask, twice, Serve(0), State(2, [0, 1], [0], [], 1, [In(1, page), Out(1)]));
    AfterBoth(s, [Say, Ask], [Ask, Serve(0)]);
  }

  lemma BothAnswersArrive(s: State, page: Page)
    requires s == State(2, [0, 1], [0], [], 1, [In(1, page), Out(1)]) && page == Asked(2, 1)
    ensures After(s, [Serve(1), Arrive(0)] + [Arrive(0)]) == Some(State(2, [0, 1], [0, 1, 1], [], 2, []))
  {
    assert page == Page([1], 2, false);
    var both, one := State(2, [0, 1], [0], [], 1, [In(1, page), In(1, page)]), State(2, [0, 1], [0, 1], [], 2, [In(1, page)]);
    assert Without(both.requests, 0) == [In(1, page)] && Without(one.requests, 0) == [];
    Two(s, Serve(1), both, Arrive(0), one);
    assert [0, 1] + [1] == [0, 1, 1];
    Leads(s, [Serve(1), Arrive(0)], one, Arrive(0), State(2, [0, 1], [0, 1, 1], [], 2, []));
  }

  /** So with two requests under way at once a line is confirmed twice, from a fresh
      screen and with nothing lost or cut off. */
  lemma OverlapShowsALineTwice()
    ensures After(Fresh, Overlap()).Some?
    ensures After(Fresh, Overlap()).value.confirmed == [0, 1, 1] && !InOrder(Shown(After(Fresh, Overlap()).value))
  {
    var page := Asked(2, 1);
    var a, b, c := [Say, Ask] + [Serve(0), Arrive(0)], [Say, Ask] + [Ask, Serve(0)], [Serve(1), Arrive(0)] + [Arrive(0)];
    var s1, s2 := State(1, [0], [0], [], 1, []), State(2, [0, 1], [0], [], 1, [In(1, page), Out(1)]);
    FirstLineConfirmed();
    SecondLineAskedTwice(s1, page);
    BothAnswersArrive(s2, page);
    AfterBoth(Fresh, a, b);
    AfterBoth(Fresh, a + b, c);
    assert Overlap() == a + b + c;
    DrawnAsItIs(State(2, [0, 1], [0, 1, 1], [], 2, []));
  }

  lemma DrawnAsItIs(t: State)
    requires t.confirmed == [0, 1, 1] && t.heard == []
    ensures Shown(t) == [0, 1, 1] && !InOrder(Shown(t))
  {
    assert t.confirmed + t.heard == [0, 1, 1];
    assert Shown(t)[1] == Shown(t)[2];
  }

  // ------------------------------------------- and one in which what is heard fills it

  /** While a request is under way, n lines are said, each delivered at once. */
  function Talk(n: nat): seq<Step> {
    if n == 0 then [] else Talk(n - 1) + [Say, Deliver]
  }

  /** What is heard, and what the request notes as heard since it went out. */
  function Talked(n: nat): State {
    State(n, [], [], Places(0, n), 0, [Request(0, 0, Places(0, n), None)])
  }

  lemma OneMoreTalked(n: nat)
    requires n < MaxLogLines
    ensures After(Talked(n), [Say, Deliver]) == Some(Talked(n + 1))
  {
    var s, r := Talked(n), Request(0, 0, Places(0, n), None);
    var m := State(n + 1, [n], [], Places(0, n), 0, [r]);
    assert [] + [n] == [n];
    OneMorePlace(n);
    assert AllHeard([r], n) == [Request(0, 0, Places(0, n + 1), None)];
    assert [n][1..] == [];
    Two(s, Say, m, Deliver, Talked(n + 1));
  }

  lemma OneMorePlace(n: nat)
    ensures Places(0, n) + [n] == Places(0, n + 1)
    ensures n < MaxLogLines ==> Last(Places(0, n) + [n], MaxLogLines) == Places(0, n + 1)
  {
  }

  lemma {:induction false} Talking(n: nat)
    requires n <= MaxLogLines
    ensures After(Fresh, [Ask] + Talk(n)) == Some(Talked(n))
  {
    if n == 0 {
      FirstAsked();
      assert [Ask] + [] == [Ask];
    } else {
      Talking(n - 1);
      OneMoreTalked(n - 1);
      AfterBoth(Fresh, [Ask] + Talk(n - 1), [Say, Deliver]);
      Regrouped([Ask], Talk(n - 1), [Say, Deliver]);
    }
  }

  lemma FirstAsked()
    ensures After(Fresh, [Ask]) == Some(Talked(0))
  {
    assert [] + [Ask] == [Ask] && Places(0, 0) == [];
    Leads(Fresh, [], Fresh, Ask, Talked(0));
  }

  lemma Regrouped(a: seq<Step>, b: seq<Step>, c: seq<Step>)
    ensures a + (b + c) == (a + b) + c
  {
  }

  /** From a fresh screen: as many lines as the screen takes are heard before the one
      request is answered. All of them are handed over too, and yet each is drawn once. */
  lemma HeardFillTheScreen()
    ensures var run := [Ask] + Talk(MaxLogLines) + [Serve(0), Arrive(0)];
            After(Fresh, run).Some?
            && var t := After(Fresh, run).value; t.confirmed == t.heard && !NoneTwice(t) && InOrder(Shown(t))
  {
    var n := MaxLogLines;
    var lines := Places(0, n);
    var page := Asked(n, 0);
    assert page == Page(lines, n, true);
    var served, t := State(n, [], [], lines, 0, [Request(0, 0, lines, Some(page))]), State(n, [], lines, lines, n, []);
    Talking(n);
    assert Talked(n).requests[0 := Request(0, 0, lines, Some(page))] == served.requests;
    assert Without(served.requests, 0) == [];
    assert Later(lines, 0) == lines && Last(lines, n) == lines;
    Two(Talked(n), Serve(0), served, Arrive(0), t);
    AfterBoth(Fresh, [Ask] + Talk(n), [Serve(0), Arrive(0)]);
    FullOfHeard(t, n);
  }

  lemma FullOfHeard(t: State, n: nat)
    requires n == MaxLogLines && t.heard == Places(0, n) && t.cursor == n
    ensures !NoneTwice(t) && InOrder(Shown(t))
  {
    assert t.heard[0] in t.heard;
    assert Shown(t) == t.heard;
  }
}
