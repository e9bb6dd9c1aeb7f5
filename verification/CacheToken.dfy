/**
 * The token handshake of `DeviceUtils`: every session that initialises its cache writes a new token to the
 * device and remembers the one it found, so that a dumped cache is loaded only by the session that found the
 * dump's token.
 *
 * The shell command that reads and writes the token is one step, and tokens are unique.
 */
module CacheToken {
  import opened Wrappers

  type Token = string
  type Id = nat
  type Package = string
  type Path = string
  type Sum = string

  datatype Cache = Cache(
    apkPaths: map<Package, seq<Path>>,
    apkSums: map<Package, set<Sum>>,
    deviceSums: map<Path, (bool, map<Path, Sum>)>)

  const EMPTY := Cache(map[], map[], map[])

  datatype Session = Session(token: Option<Token>, prev: Option<Token>, cache: Cache, toVerify: set<Package>)

  function NewSession(): Session {
    Session(None, None, EMPTY, {})
  }

  /** One initialisation: who did it, and the token left on the device. */
  datatype Init = Init(session: Id, token: Token)

  /** The device holds the token of the last of `inits`, or `first`; `inits` is the history. */
  datatype State = State(first: Option<Token>, inits: seq<Init>, sessions: map<Id, Session>)
  {
    function DeviceToken(): Option<Token> {
      if inits == [] then first else Some(inits[|inits| - 1].token)
    }

    function Get(i: Id): Session {
      if i in sessions then sessions[i] else NewSession()
    }

    predicate Used(t: Token) {
      first == Some(t) || exists k :: 0 <= k < |inits| && inits[k].token == t
    }

    predicate HasToken(i: Id, k: nat) {
      k < |inits| && inits[k].session == i && Get(i).token == Some(inits[k].token)
    }
  }

  /** The token on the device before an initialisation. */
  function Before(s: State, k: nat): Option<Token>
    requires k <= |s.inits|
  {
    if k == 0 then s.first else Some(s.inits[k - 1].token)
  }

  // ---------------------------------------------------------------------------------------------
  // The operations

  function Initialized(x: Session, found: Option<Token>, uuid: Token): Session {
    if x.token.Some? then x else x.(token := Some(uuid), prev := found)
  }

  function EnsureInitialized(s: State, i: Id, uuid: Token): State {
    if s.Get(i).token.Some? then s
    else
      s.(inits := s.inits + [Init(i, uuid)],
         sessions := s.sessions[i := Initialized(s.Get(i), s.DeviceToken(), uuid)])
  }

  /** `_ClearCache`: the next use initialises again. */
  function Clear(s: State, i: Id): State {
    s.(sessions := s.sessions[i := NewSession()])
  }

  /** JSON has no sets, so the checksums of a package are dumped as a list. */
  datatype Dumped = Dumped(
    token: Option<Token>,
    apkPaths: map<Package, seq<Path>>,
    apkSums: map<Package, seq<Sum>>,
    deviceSums: map<Path, (bool, map<Path, Sum>)>)

  function SetOf(list: seq<Sum>): set<Sum> {
    set x | x in list
  }

  ghost predicate ListsSets(lists: map<Package, seq<Sum>>, sets: map<Package, set<Sum>>) {
    lists.Keys == sets.Keys && forall k :: k in lists ==> SetOf(lists[k]) == sets[k]
  }

  /** `d` is what `DumpCacheData` returns for a session, in some order of the lists. */
  ghost predicate Dumps(x: Session, d: Dumped) {
    && d.token == x.token
    && d.apkPaths == x.cache.apkPaths
    && ListsSets(d.apkSums, x.cache.apkSums)
    && d.deviceSums == x.cache.deviceSums
  }

  function Loaded(x: Session, d: Dumped): (Session, bool) {
    if d.token.None? || x.prev != d.token then (x, false)
    else
      var cache := Cache(d.apkPaths, map k | k in d.apkSums :: SetOf(d.apkSums[k]), d.deviceSums);
      (x.(cache := cache, toVerify := d.apkPaths.Keys), true)
  }

  function Load(s: State, i: Id, d: Dumped, uuid: Token): (State, bool) {
    var s1 := EnsureInitialized(s, i, uuid);
    var (x, ok) := Loaded(s1.Get(i), d);
    (s1.(sessions := s1.sessions[i := x]), ok)
  }

  // ---------------------------------------------------------------------------------------------
  // Runs

  /** `Work` is any use of the device that changes what the session knows, and possibly the device. */
  datatype Event = Use(i: Id, uuid: Token) | Clearing(i: Id) | Work(i: Id, uuid: Token, cache: Cache)
                 | Loading(i: Id, d: Dumped, uuid: Token)

  function Step(s: State, e: Event): State {
    match e
    case Use(i, uuid) => EnsureInitialized(s, i, uuid)
    case Clearing(i) => Clear(s, i)
    case Work(i, uuid, cache) =>
      var s1 := EnsureInitialized(s, i, uuid);
      s1.(sessions := s1.sessions[i := s1.Get(i).(cache := cache)])
    case Loading(i, d, uuid) => Load(s, i, d, uuid).0
  }

  /** A token that is made is new. */
  predicate Unique(s: State, e: Event) {
    !e.Clearing? && s.Get(e.i).token.None? ==> !s.Used(e.uuid)
  }

  ghost predicate Run(states: seq<State>, events: seq<Event>) {
    && |states| == |events| + 1
    && states[0].inits == [] && (forall i :: states[0].Get(i).token == None)
    && forall k :: 0 <= k < |events| ==> Unique(states[k], events[k]) && states[k + 1] == Step(states[k], events[k])
  }

  /** A session's token is that of an initialisation of its own, and the other the one before. */
  ghost predicate FromOwnInit(s: State, i: Id) {
    s.Get(i).token.Some? ==> exists k :: s.HasToken(i, k) && s.Get(i).prev == Before(s, k)
  }

  ghost predicate DistinctTokens(s: State) {
    && (forall j, k :: 0 <= j < k < |s.inits| ==> s.inits[j].token != s.inits[k].token)
    && (forall k :: 0 <= k < |s.inits| ==> s.first != Some(s.inits[k].token))
  }

  ghost predicate Inv(s: State) {
    DistinctTokens(s) && forall i :: FromOwnInit(s, i)
  }

  /** The history and the session stay as they are, or the history grows. */
  lemma {:induction false} FromOwnInitStays(s: State, after: State, i: Id)
    requires FromOwnInit(s, i) && s.inits <= after.inits && s.first == after.first
    requires s.Get(i).token == after.Get(i).token && s.Get(i).prev == after.Get(i).prev
    ensures FromOwnInit(after, i)
  {
    if s.Get(i).token.Some? {
      var k :| s.HasToken(i, k) && s.Get(i).prev == Before(s, k);
      assert after.HasToken(i, k) && after.Get(i).prev == Before(after, k);
    }
  }

  lemma {:induction false} InitKeepsInv(s: State, i: Id, uuid: Token)
    requires Inv(s) && (s.Get(i).token.None? ==> !s.Used(uuid))
    ensures Inv(EnsureInitialized(s, i, uuid))
  {
    var after := EnsureInitialized(s, i, uuid);
    if s.Get(i).token.None? {
      forall j ensures FromOwnInit(after, j) {
        assert FromOwnInit(s, j);
        if j == i {
          assert after.HasToken(i, |s.inits|) && after.Get(i).prev == Before(after, |s.inits|);
        } else {
          FromOwnInitStays(s, after, j);
        }
      }
      assert forall k :: 0 <= k < |s.inits| ==> s.inits[k].token != uuid;
    }
  }

  lemma {:induction false} StepKeepsInv(s: State, e: Event)
    requires Inv(s) && Unique(s, e)
    ensures Inv(Step(s, e)) && s.first == Step(s, e).first && s.inits <= Step(s, e).inits
  {
    var after := Step(s, e);
    var mid := if e.Clearing? then s else EnsureInitialized(s, e.i, e.uuid);
    if !e.Clearing? {
      InitKeepsInv(s, e.i, e.uuid);
    }
    forall j ensures FromOwnInit(after, j) {
      assert FromOwnInit(mid, j);
      if !e.Clearing? || j != e.i {
        FromOwnInitStays(mid, after, j);
      }
    }
  }

  lemma {:induction false} InvHolds(states: seq<State>, events: seq<Event>, n: nat)
    requires Run(states, events) && n < |states|
    ensures Inv(states[n])
    decreases n
  {
    if n == 0 {
    } else {
      InvHolds(states, events, n - 1);
      StepKeepsInv(states[n - 1], events[n - 1]);
    }
  }

  lemma {:induction false} HistoryGrows(states: seq<State>, events: seq<Event>, m: nat, n: nat)
    requires Run(states, events) && m <= n < |states|
    ensures states[m].inits <= states[n].inits && states[m].first == states[n].first
    decreases n
  {
    if m < n {
      HistoryGrows(states, events, m, n - 1);
      InvHolds(states, events, n - 1);
      StepKeepsInv(states[n - 1], events[n - 1]);
    }
  }

  // ---------------------------------------------------------------------------------------------
  // What a load means

  /** A load works exactly when the loader initialised right after the initialisation the dump's token is from. */
  lemma {:induction false} LoadsIffNextToInit(s: State, i: Id, d: Dumped, uuid: Token, a: nat)
    requires Inv(s) && (s.Get(i).token.None? ==> !s.Used(uuid))
    requires a < |s.inits| && d.token == Some(s.inits[a].token)
    ensures Load(s, i, d, uuid).1 <==> EnsureInitialized(s, i, uuid).HasToken(i, a + 1)
  {
    var s1 := EnsureInitialized(s, i, uuid);
    InitKeepsInv(s, i, uuid);
    assert FromOwnInit(s1, i);
    var k :| s1.HasToken(i, k) && s1.Get(i).prev == Before(s1, k);
    assert s1.inits[a] == s.inits[a];
  }

  /** The token on the device that the session found, or will find, when it initialises. */
  function FoundToken(s: State, i: Id): Option<Token> {
    if s.Get(i).token.Some? then s.Get(i).prev else s.DeviceToken()
  }

  /** What every operation does to tokens: a session without one puts a new one on the device, and remembers the old. */
  predicate OnlyInitialises(s: State, after: State, i: Id, uuid: Token) {
    && after.first == s.first
    && after.inits == (if s.Get(i).token.Some? then s.inits else s.inits + [Init(i, uuid)])
    && after.Get(i).token == (if s.Get(i).token.Some? then s.Get(i).token else Some(uuid))
    && after.Get(i).prev == FoundToken(s, i)
  }

  ghost predicate OthersStay(s: State, after: State, i: Id) {
    forall j: Id :: j != i ==> after.Get(j) == s.Get(j)
  }

  /**
   * A load answers true exactly if the dump has a token and it is the one the loader found. A load that answers
   * false leaves the session's cache and its paths to verify as they were. No load changes another session.
   */
  lemma {:induction false} LoadIs(s: State, i: Id, d: Dumped, uuid: Token)
    ensures var (after, ok) := Load(s, i, d, uuid);
      && (ok <==> d.token.Some? && d.token == FoundToken(s, i))
      && (!ok ==> after.Get(i).cache == s.Get(i).cache && after.Get(i).toVerify == s.Get(i).toVerify)
      && OnlyInitialises(s, after, i, uuid) && OthersStay(s, after, i)
  {
  }

  /** The same at every load of every run, and what the other events do. */
  lemma {:induction false} EventsChangeTheirSession(states: seq<State>, events: seq<Event>, n: nat)
    requires Run(states, events) && n < |events|
    ensures var e, before, after := events[n], states[n].Get(events[n].i), states[n + 1].Get(events[n].i);
      && OthersStay(states[n], states[n + 1], e.i)
      && (!e.Clearing? ==> OnlyInitialises(states[n], states[n + 1], e.i, e.uuid))
      && (e.Clearing? ==> after == NewSession() && states[n + 1].inits == states[n].inits)
      && (e.Use? ==> after.cache == before.cache && after.toVerify == before.toVerify)
      && (e.Work? ==> after.cache == e.cache && after.toVerify == before.toVerify)
      && (e.Loading? && !(e.d.token.Some? && e.d.token == FoundToken(states[n], e.i)) ==>
            after.cache == before.cache && after.toVerify == before.toVerify)
  {
    if events[n].Loading? {
      LoadIs(states[n], events[n].i, events[n].d, events[n].uuid);
    }
  }

  /** A cache that is loaded is the one that was dumped, and every loaded path list is to be verified. */
  lemma {:induction false} LoadedIsDumped(made: State, maker: Id, s: State, i: Id, d: Dumped, uuid: Token)
    requires Dumps(made.Get(maker), d) && Load(s, i, d, uuid).1
    ensures var after := Load(s, i, d, uuid).0.Get(i);
      after.cache == made.Get(maker).cache && after.toVerify == made.Get(maker).cache.apkPaths.Keys
  {
    var after := Load(s, i, d, uuid).0.Get(i);
    assert after.cache.apkSums == made.Get(maker).cache.apkSums;
  }

  /** A session acts while the token on the device is its own: no other has initialised since. */
  ghost predicate IsCurrent(s: State, i: Id) {
    s.Get(i).token.Some? && s.Get(i).token == s.DeviceToken()
  }

  lemma {:induction false} CurrentIsLast(s: State, i: Id)
    requires Inv(s) && IsCurrent(s, i) && s.inits != []
    ensures s.HasToken(i, |s.inits| - 1)
  {
    assert FromOwnInit(s, i);
  }

  /** The session that works at an event, initialised. */
  function AtWork(s: State, e: Event): State
    requires e.Work?
  {
    EnsureInitialized(s, e.i, e.uuid)
  }

  lemma {:induction false} WorkerIsLast(states: seq<State>, events: seq<Event>, k: nat)
    requires Run(states, events) && k < |events| && events[k].Work?
    requires IsCurrent(AtWork(states[k], events[k]), events[k].i)
    ensures var s := AtWork(states[k], events[k]);
      && states[k].inits <= s.inits == states[k + 1].inits
      && (s.inits != [] ==> s.inits[|s.inits| - 1].session == events[k].i)
  {
    InvHolds(states, events, k);
    InitKeepsInv(states[k], events[k].i, events[k].uuid);
    if AtWork(states[k], events[k]).inits != [] {
      CurrentIsLast(AtWork(states[k], events[k]), events[k].i);
    }
  }

  /**
   * When sessions dump, work and load only while the token on the device is their own, nobody but the maker
   * of a dump and its loader has worked on the device between the dump and a load that works.
   */
  lemma {:induction false} NobodyElseWorked(states: seq<State>, events: seq<Event>, maker: Id, d: Dumped, m: nat,
                                            loader: Id, uuid: Token, n: nat, k: nat)
    requires Run(states, events) && m <= k < n < |states|
    requires Dumps(states[m].Get(maker), d) && IsCurrent(states[m], maker) && states[m].inits != []
    requires states[n].Get(loader).token.None? ==> !states[n].Used(uuid)
    requires Load(states[n], loader, d, uuid).1 && IsCurrent(EnsureInitialized(states[n], loader, uuid), loader)
    requires events[k].Work? && IsCurrent(AtWork(states[k], events[k]), events[k].i)
    ensures events[k].i == maker || events[k].i == loader
  {
    var a := |states[m].inits| - 1;
    InvHolds(states, events, m);
    InvHolds(states, events, n);
    CurrentIsLast(states[m], maker);
    HistoryGrows(states, events, m, n);
    LoadsIffNextToInit(states[n], loader, d, uuid, a);
    var end := EnsureInitialized(states[n], loader, uuid);
    InitKeepsInv(states[n], loader, uuid);
    CurrentIsLast(end, loader);
    assert |end.inits| == a + 2 by {
      assert end.inits[a + 1].token == end.inits[|end.inits| - 1].token;
    }
    WorkerIsLast(states, events, k);
    HistoryGrows(states, events, m, k);
    HistoryGrows(states, events, k + 1, n);
    var seen := AtWork(states[k], events[k]).inits;
    assert states[m].inits <= seen <= end.inits;
    assert |seen| == a + 1 || |seen| == a + 2;
  }

  // ---------------------------------------------------------------------------------------------
  // What a load does not notice

  /** The session of the event had no token, so the event initialises it. */
  predicate Initialises(s: State, e: Event) {
    !e.Clearing? && s.Get(e.i).token.None?
  }

  lemma {:induction false} HistoryStaysIff(states: seq<State>, events: seq<Event>, m: nat, n: nat)
    requires Run(states, events) && m <= n < |states|
    ensures states[n].inits == states[m].inits
      <==> forall k :: m <= k < n ==> !Initialises(states[k], events[k])
    decreases n
  {
    if m < n {
      HistoryStaysIff(states, events, m, n - 1);
      HistoryGrows(states, events, m, n - 1);
      assert states[n] == Step(states[n - 1], events[n - 1]);
    }
  }

  /**
   * A dump that carries the token on the device is loaded by a session that initialises for it exactly if no
   * session initialised in between. Whatever the sessions that had a token did to the device is not noticed.
   */
  lemma {:induction false} LoadsIffNobodyInitialised(states: seq<State>, events: seq<Event>, m: nat, n: nat,
                                                     loader: Id, d: Dumped, uuid: Token)
    requires Run(states, events) && m <= n < |states|
    requires states[m].inits != [] && d.token == states[m].DeviceToken()
    requires states[n].Get(loader).token.None? && !states[n].Used(uuid)
    ensures Load(states[n], loader, d, uuid).1
      <==> forall k :: m <= k < n ==> !Initialises(states[k], events[k])
  {
    InvHolds(states, events, n);
    HistoryGrows(states, events, m, n);
    HistoryStaysIff(states, events, m, n);
    var last, end := |states[m].inits| - 1, |states[n].inits| - 1;
    assert states[n].inits[last] == states[m].inits[last];
    if states[n].inits != states[m].inits {
      assert last < end;
    }
  }

  /** Work between a dump and its load goes unnoticed exactly if its session had been initialised before. */
  lemma {:induction false} WorkUnnoticedIff(states: seq<State>, events: seq<Event>, n: nat, worker: Id, uuid: Token,
                                            cache: Cache, loader: Id, d: Dumped, next: Token)
    requires Run(states, events) && n < |events| && events[n] == Work(worker, uuid, cache) && worker != loader
    requires states[n].inits != [] && d.token == states[n].DeviceToken()
    requires states[n].Get(loader).token.None? && !states[n + 1].Used(next)
    ensures Load(states[n + 1], loader, d, next).1 <==> states[n].Get(worker).token.Some?
  {
    assert states[n + 1] == Step(states[n], events[n]);
    LoadsIffNobodyInitialised(states, events, n, n + 1, loader, d, next);
    assert Initialises(states[n], events[n]) <==> states[n].Get(worker).token.None?;
  }

  /** Such a run: session 0 initialises, session 1 initialises and dumps, session 0 works on, session 2 loads. */
  lemma {:induction false} OldSessionGoesUnnoticed() returns (states: seq<State>, events: seq<Event>, d: Dumped)
    ensures Run(states, events) && |events| == 3
    ensures Dumps(states[2].Get(1), d) && IsCurrent(states[2], 1)
    ensures events[2].Work? && events[2].i == 0
    ensures !states[3].Used("c") && Load(states[3], 2, d, "c").1
  {
    events := [Use(0, "a"), Use(1, "b"), Work(0, "x", EMPTY)];
    var s0 := State(None, [], map[]);
    var s1 := Step(s0, events[0]);
    var s2 := Step(s1, events[1]);
    states := [s0, s1, s2, Step(s2, events[2])];
    d := Dumped(Some("b"), map[], map[], map[]);
    WorkUnnoticedIff(states, events, 2, 0, "x", EMPTY, 2, d, "c");
  }

  // ---------------------------------------------------------------------------------------------
  // The objects

  class Device {
    var token: Option<Token>

    constructor (token: Option<Token>)
      ensures this.token == token
    {
      this.token := token;
    }
  }

  class DeviceUtils {
    const device: Device
    var token: Option<Token>
    var prevToken: Option<Token>
    var packageApkPaths: map<Package, seq<Path>>
    var packageApkPathsToVerify: set<Package>
    var packageApkChecksums: map<Package, set<Sum>>
    var devicePathChecksums: map<Path, (bool, map<Path, Sum>)>

    constructor (device: Device)
      ensures this.device == device && Now() == NewSession()
    {
      this.device := device;
      new;
      ClearCache();
    }

    function Now(): Session
      reads this
    {
      var cache := Cache(packageApkPaths, packageApkChecksums, devicePathChecksums);
      Session(token, prevToken, cache, packageApkPathsToVerify)
    }

    method ClearCache()
      modifies this
      ensures Now() == NewSession()
    {
      token, prevToken := None, None;
      packageApkPaths, packageApkPathsToVerify, packageApkChecksums, devicePathChecksums := map[], {}, map[], map[];
    }

    method EnsureCacheInitialized(uuid: Token)
      modifies this, device
      ensures Now() == Initialized(old(Now()), old(device.token), uuid)
      ensures device.token == if old(token).Some? then old(device.token) else Some(uuid)
    {
      if token.Some? {
        return;
      }
      prevToken := device.token;
      device.token := Some(uuid);
      token := Some(uuid);
    }

    method LoadCacheData(d: Dumped, uuid: Token) returns (loaded: bool)
      modifies this, device
      ensures (Now(), loaded) == Loaded(Initialized(old(Now()), old(device.token), uuid), d)
      ensures loaded <==>
        d.token.Some? && d.token == if old(token).Some? then old(prevToken) else old(device.token)
      ensures !loaded ==> Now().cache == old(Now()).cache && packageApkPathsToVerify == old(packageApkPathsToVerify)
      ensures device.token == if old(token).Some? then old(device.token) else Some(uuid)
    {
      EnsureCacheInitialized(uuid);
      if d.token.None? || prevToken != d.token {
        return false;
      }
      packageApkPaths, packageApkPathsToVerify := d.apkPaths, d.apkPaths.Keys;
      packageApkChecksums := map k | k in d.apkSums :: SetOf(d.apkSums[k]);
      devicePathChecksums := d.deviceSums;
      return true;
    }

    method DumpCacheData(uuid: Token) returns (d: Dumped)
      modifies this, device
      ensures Now() == Initialized(old(Now()), old(device.token), uuid) && Dumps(Now(), d)
      ensures Now().cache == old(Now()).cache && packageApkPathsToVerify == old(packageApkPathsToVerify)
      ensures device.token == if old(token).Some? then old(device.token) else Some(uuid)
    {
      EnsureCacheInitialized(uuid);
      var lists := ListsOf(packageApkChecksums);
      d := Dumped(token, packageApkPaths, lists, devicePathChecksums);
    }
  }

  method ListsOf(sets: map<Package, set<Sum>>) returns (lists: map<Package, seq<Sum>>)
    ensures ListsSets(lists, sets)
  {
    lists := map[];
    var left := sets.Keys;
    while left != {}
      invariant left <= sets.Keys && lists.Keys == sets.Keys - left
      invariant forall k :: k in lists ==> SetOf(lists[k]) == sets[k]
    {
      var k :| k in left;
      var list := ListOf(sets[k]);
      lists, left := lists[k := list], left - {k};
    }
  }

  method ListOf(sums: set<Sum>) returns (list: seq<Sum>)
    ensures SetOf(list) == sums && |list| == |sums|
  {
    var left := sums;
    list := [];
    while left != {}
      invariant left <= sums && SetOf(list) == sums - left && |list| == |sums| - |left|
    {
      var x :| x in left;
      assert SetOf(list + [x]) == SetOf(list) + {x};
      list, left := list + [x], left - {x};
    }
  }
}
