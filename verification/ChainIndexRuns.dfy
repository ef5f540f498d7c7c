/** Runs of the chain index: which heights it holds after any sequence of accepts, historical writes and
    restarts, and exactly when accepting fails. */
module ChainIndexRuns {
  import opened Bytes
  import opened ChainIndex

  datatype Event = Accept(h: nat) | Save(h: nat) | Open(window: nat)

  /** One event; None is a failure. */
  function After(k: Kept, e: Event): Option<Kept> {
    match e
    case Accept(h) => Accepted(k, h)
    case Save(h) => Some(k.(heights := k.heights + {h}))
    case Open(window) => Some(Swept(k, window))
  }

  function Next(k: Kept): nat {
    if k.last.None? then 0 else k.last.value + 1
  }

  /** A window no larger than another, where 0 keeps everything. */
  predicate NoLarger(window: nat, than: nat) {
    than == 0 || 0 < window <= than
  }

  /** Heights are accepted one after the other from genesis, historical blocks lie below the last
      accepted one, and the window never grows. */
  predicate Orderly(k: Kept, e: Event) {
    match e
    case Accept(h) => h == Next(k)
    case Save(h) => k.last.Some? && h <= k.last.value
    case Open(window) => NoLarger(window, k.window)
  }

  predicate InWindow(k: Kept, h: nat) {
    k.last.Some? && h <= k.last.value && (h == 0 || k.window == 0 || k.last.value < h + k.window)
  }

  /** Genesis and the window are held, and nothing above the last accepted height. */
  ghost predicate Covers(k: Kept) {
    && (forall h :: InWindow(k, h) ==> h in k.heights)
    && (forall h :: h in k.heights ==> h < Next(k))
  }

  /** Genesis and the window are held, and nothing else. */
  ghost predicate Exact(k: Kept) {
    forall h :: h in k.heights <==> InWindow(k, h)
  }

  function Run(k: Kept, events: seq<Event>): Option<Kept>
    decreases |events|
  {
    if events == [] then Some(k)
    else match After(k, events[0])
      case None => None
      case Some(next) => Run(next, events[1..])
  }

  ghost predicate AllOrderly(k: Kept, events: seq<Event>)
    decreases |events|
  {
    events != [] ==>
      Orderly(k, events[0]) && (After(k, events[0]).Some? ==> AllOrderly(After(k, events[0]).value, events[1..]))
  }

  lemma OrderlyKeepsCover(k: Kept, e: Event)
    requires Covers(k) && Orderly(k, e)
    ensures After(k, e).Some? && Covers(After(k, e).value)
  {
    if e.Accept? && Expires(k.window, e.h).Some? {
      assert InWindow(k, Expires(k.window, e.h).value);
    }
    var next := After(k, e).value;
    forall h | InWindow(next, h) ensures h in next.heights {
      if e.Accept? {
        assert h == e.h || InWindow(k, h);
      } else {
        assert InWindow(k, h);
      }
    }
  }

  /** No orderly run ever fails, and after each one the index holds genesis and the window. */
  lemma {:induction false} OrderlyRunsNeverFail(k: Kept, events: seq<Event>)
    requires Covers(k) && AllOrderly(k, events)
    ensures Run(k, events).Some? && Covers(Run(k, events).value)
    decreases |events|
  {
    if events != [] {
      OrderlyKeepsCover(k, events[0]);
      OrderlyRunsNeverFail(After(k, events[0]).value, events[1..]);
    }
  }

  /** The same from an empty database. */
  lemma FromGenesisNeverFails(window: nat, events: seq<Event>)
    requires AllOrderly(Kept({}, None, window), events)
    ensures Run(Kept({}, None, window), events).Some?
    ensures Covers(Run(Kept({}, None, window), events).value)
  {
    OrderlyRunsNeverFail(Kept({}, None, window), events);
  }

  lemma ConstantKeepsExact(k: Kept, e: Event)
    requires Exact(k) && Orderly(k, e) && !e.Save? && (e.Open? ==> e.window == k.window)
    ensures After(k, e).Some? && Exact(After(k, e).value) && After(k, e).value.window == k.window
  {
    if e.Accept? && Expires(k.window, e.h).Some? {
      assert InWindow(k, Expires(k.window, e.h).value);
    }
    var next := After(k, e).value;
    forall h ensures h in next.heights <==> InWindow(next, h) {
      assert h in k.heights <==> InWindow(k, h);
    }
  }

  /** With one window throughout and no historical writes, the index holds genesis and the window and
      nothing else. */
  lemma {:induction false} ConstantWindowIsExact(k: Kept, events: seq<Event>)
    requires Exact(k) && AllOrderly(k, events)
    requires forall e :: e in events ==> !e.Save? && (e.Open? ==> e.window == k.window)
    ensures Run(k, events).Some? && Exact(Run(k, events).value)
    decreases |events|
  {
    if events != [] {
      assert events[0] in events;
      ConstantKeepsExact(k, events[0]);
      ConstantWindowIsExact(After(k, events[0]).value, events[1..]);
    }
  }

  /** Growing the window is what breaks: after a restart, the next accept fails exactly when the new
      window is larger than the old one but smaller than the chain is high. */
  lemma GrownWindowFails(k: Kept, window: nat)
    requires Exact(k) && k.last.Some?
    ensures Accepted(Swept(k, window), Next(k)) == None <==> k.window != 0 && k.window < window < Next(k)
  {
    var s := Swept(k, window);
    if Expires(window, Next(k)).Some? {
      var e := Expires(window, Next(k)).value;
      assert e in k.heights <==> InWindow(k, e);
      assert e in s.heights <==> e in k.heights;
    }
  }

  /** A node at height ten with a window of five, restarted with a window of eight: accepting the next block
      would expire height three, which went when the window was five. */
  lemma GrownWindowExample()
    ensures var k := Kept({0, 6, 7, 8, 9, 10}, Some(10), 5);
            Exact(k) && Next(k) == 11 && Accepted(k, 11).Some? && Accepted(Swept(k, 8), 11) == None
  {
  }

  /** Jumping ahead, as state sync does, fails exactly when the jump is longer than the window: the height
      to expire was then never written. */
  lemma JumpFails(k: Kept, h: nat)
    requires Exact(k) && k.last.Some? && k.last.value < h
    ensures Accepted(k, h) == None <==> k.window != 0 && k.last.value + k.window < h
  {
    if Expires(k.window, h).Some? {
      assert Expires(k.window, h).value in k.heights <==> InWindow(k, Expires(k.window, h).value);
    }
  }

  /** A node on genesis with a window of ten cannot record a sync target at height one hundred. */
  lemma JumpFailsExample()
    ensures Exact(Kept({0}, Some(0), 10)) && Accepted(Kept({0}, Some(0), 10), 100) == None
  {
  }
}
