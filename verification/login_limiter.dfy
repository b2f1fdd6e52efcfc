/**
  Login admission: an ordered map of windows changed in place, and a handle on its window for every
  attempt in flight. Each method is one critical section. `serial` stands for a window's identity: a
  new window for the same address is another one.
*/
module LoginLimiter {
  import opened Basics
  import opened LimiterModel

  type Ip = int

  datatype Window = Window(failures: seq<real>, pending: nat, serial: nat)

  datatype Admission = Admitted(serial: nat) | Refused(retry: int)

  type Entries = map<Ip, Window>

  function FailuresOf(entries: Entries, ip: Ip): seq<real> {
    if ip in entries then entries[ip].failures else []
  }

  function PendingOf(entries: Entries, ip: Ip): nat {
    if ip in entries then entries[ip].pending else 0
  }

  predicate Distinct(order: seq<Ip>) {
    forall i, j :: 0 <= i < j < |order| ==> order[i] != order[j]
  }

  function Without(order: seq<Ip>, ip: Ip): (r: seq<Ip>)
    ensures forall k :: k in order && k != ip ==> k in r
    ensures forall i :: 0 <= i < |r| ==> r[i] in order && r[i] != ip
  {
    if order == [] then [] else (if order[0] == ip then [] else [order[0]]) + Without(order[1..], ip)
  }

  lemma {:induction false} WithoutKeepsDistinct(order: seq<Ip>, ip: Ip)
    requires Distinct(order)
    ensures Distinct(Without(order, ip))
  {
    if order != [] {
      WithoutKeepsDistinct(order[1..], ip);
      assert order[0] !in order[1..];
    }
  }

  /** `move_to_end`. */
  function Touched(order: seq<Ip>, ip: Ip): seq<Ip> {
    Without(order, ip) + [ip]
  }

  /** What is left of the order when only some addresses stay. */
  function Staying(order: seq<Ip>, keys: set<Ip>): (r: seq<Ip>) {
    if order == [] then []
    else if order[0] in keys then [order[0]] + Staying(order[1..], keys)
    else Staying(order[1..], keys)
  }

  lemma {:induction false} AllStay(order: seq<Ip>, keys: set<Ip>)
    requires forall i :: 0 <= i < |order| ==> order[i] in keys
    ensures Staying(order, keys) == order
  {
    if order != [] {
      assert forall i :: 0 <= i < |order[1..]| ==> order[1..][i] == order[i + 1];
      AllStay(order[1..], keys);
    }
  }

  lemma {:induction false} WithoutStaying(order: seq<Ip>, keys: set<Ip>, ip: Ip)
    ensures Without(Staying(order, keys), ip) == Staying(order, keys - {ip})
  {
    if order != [] {
      WithoutStaying(order[1..], keys, ip);
      var rest := Staying(order[1..], keys);
      if order[0] in keys {
        WithoutFirst(order[0], rest, ip);
        assert order[0] == ip ==> [] + Without(rest, ip) == Without(rest, ip);
      }
    }
  }

  lemma WithoutFirst(first: Ip, rest: seq<Ip>, ip: Ip)
    ensures Without([first] + rest, ip) == (if first == ip then [] else [first]) + Without(rest, ip)
  {
    assert ([first] + rest)[1..] == rest;
  }

  /** Among the windows that stay, the first without an attempt in flight. */
  ghost predicate Oldest(order: seq<Ip>, entries: Entries, victim: Ip) {
    exists i :: 0 <= i < |order| && order[i] == victim && forall j :: 0 <= j < i ==> PendingOf(entries, order[j]) > 0
  }

  /** Every address before it in the whole order has gone, or an attempt in flight. */
  ghost predicate FirstIdle(order: seq<Ip>, entries: Entries, victim: Ip) {
    exists i :: 0 <= i < |order| && order[i] == victim
      && forall j :: 0 <= j < i ==> order[j] !in entries || PendingOf(entries, order[j]) > 0
  }

  lemma {:induction false} OldestIsFirstIdle(order: seq<Ip>, entries: Entries, victim: Ip)
    requires Oldest(Staying(order, entries.Keys), entries, victim)
    ensures FirstIdle(order, entries, victim)
  {
    var kept := Staying(order, entries.Keys);
    var i :| 0 <= i < |kept| && kept[i] == victim && forall j :: 0 <= j < i ==> PendingOf(entries, kept[j]) > 0;
    var rest := Staying(order[1..], entries.Keys);
    if order[0] in entries && i == 0 {
      assert order[0] == victim;
    } else {
      var shift := if order[0] in entries then 1 else 0;
      assert rest[i - shift] == victim;
      assert forall j :: 0 <= j < i - shift ==> rest[j] == kept[j + shift];
      assert Oldest(rest, entries, victim);
      OldestIsFirstIdle(order[1..], entries, victim);
      var k :| 0 <= k < |order[1..]| && order[1..][k] == victim
               && forall j :: 0 <= j < k ==> order[1..][j] !in entries || PendingOf(entries, order[1..][j]) > 0;
      assert order[0] in entries ==> PendingOf(entries, order[0]) > 0 by {
        if order[0] in entries { assert kept[0] == order[0]; }
      }
      assert order[k + 1] == victim;
      forall j | 0 <= j < k + 1 ensures order[j] !in entries || PendingOf(entries, order[j]) > 0 {
        if j > 0 { assert order[1..][j - 1] == order[j]; }
      }
    }
  }

  lemma {:induction false} WithoutAppended(order: seq<Ip>, ip: Ip)
    requires ip !in order
    ensures Without(order + [ip], ip) == order
  {
    if order != [] {
      assert (order + [ip])[1..] == order[1..] + [ip];
      assert (order + [ip])[0] in order;
      WithoutAppended(order[1..], ip);
    }
  }

  lemma WithoutTouched(order: seq<Ip>, ip: Ip)
    ensures Without(Touched(order, ip), ip) == Without(order, ip)
  {
    WithoutAppended(Without(order, ip), ip);
  }

  /** Every attempt in flight still finds its own window under its own address, and is counted there. */
  ghost predicate Reserved(inFlight: multiset<(Ip, nat)>, entries: Entries, next: nat) {
    && (forall r :: r in inFlight ==> r.0 in entries && entries[r.0].serial == r.1)
    && (forall ip :: ip in entries ==>
      inFlight[(ip, entries[ip].serial)] == entries[ip].pending
      && entries[ip].serial < next)
  }

  ghost predicate Bounded(entries: Entries) {
    |entries| <= ENTRIES && forall ip :: ip in entries ==> |entries[ip].failures| + entries[ip].pending <= LIMIT
  }

  ghost predicate Listed(order: seq<Ip>, entries: Entries) {
    && Distinct(order) && (forall ip :: ip in entries ==> ip in order)
    && forall i :: 0 <= i < |order| ==> order[i] in entries
  }

  function Pruned(w: Window, now: real): Window {
    w.(failures := Recent(w.failures, now - WINDOW))
  }

  predicate Idle(w: Window) {
    w.failures == [] && w.pending == 0
  }

  lemma DropKeepsListed(order: seq<Ip>, entries: Entries, ip: Ip)
    requires Listed(order, entries)
    ensures Listed(Without(order, ip), entries - {ip})
  {
    WithoutKeepsDistinct(order, ip);
  }

  lemma TouchKeepsListed(order: seq<Ip>, entries: Entries, ip: Ip, w: Window)
    requires Listed(order, entries)
    ensures Listed(Touched(order, ip), entries[ip := w])
  {
    WithoutKeepsDistinct(order, ip);
  }

  lemma PutKeepsBounded(entries: Entries, ip: Ip, w: Window)
    requires Bounded(entries) && |w.failures| + w.pending <= LIMIT && (ip in entries || |entries| < ENTRIES)
    ensures Bounded(entries[ip := w])
  {
    assert ip in entries ==> entries[ip := w].Keys == entries.Keys;
    assert ip !in entries ==> entries[ip := w].Keys == entries.Keys + {ip};
  }

  lemma DropKeepsBounded(entries: Entries, ip: Ip)
    requires Bounded(entries)
    ensures Bounded(entries - {ip}) && (ip in entries ==> |entries - {ip}| < |entries|)
  {
    assert (entries - {ip}).Keys == entries.Keys - {ip};
  }

  lemma UpdateKeepsReserved(inFlight: multiset<(Ip, nat)>, entries: Entries, next: nat, ip: Ip, w: Window)
    requires Reserved(inFlight, entries, next) && ip in entries && w.serial == entries[ip].serial
             && w.pending == entries[ip].pending
    ensures Reserved(inFlight, entries[ip := w], next)
  {
  }

  lemma DropKeepsReserved(inFlight: multiset<(Ip, nat)>, entries: Entries, next: nat, ip: Ip)
    requires Reserved(inFlight, entries, next) && PendingOf(entries, ip) == 0
    ensures Reserved(inFlight, entries - {ip}, next)
  {
    forall r | r in inFlight ensures r.0 != ip {
      assert r.0 in entries && entries[r.0].serial == r.1;
      assert r == (r.0, r.1);
      assert r.0 == ip ==> inFlight[(ip, entries[ip].serial)] == 0;
    }
  }

  lemma AddKeepsReserved(inFlight: multiset<(Ip, nat)>, entries: Entries, next: nat, ip: Ip, w: Window)
    requires Reserved(inFlight, entries, next)
    requires if ip in entries then w.serial == entries[ip].serial && w.pending == entries[ip].pending + 1
             else w.serial == next && w.pending == 1
    ensures Reserved(inFlight + multiset{(ip, w.serial)}, entries[ip := w], if ip in entries then next else next + 1)
  {
    var more, entries' := inFlight + multiset{(ip, w.serial)}, entries[ip := w];
    forall r | r in more ensures r.0 in entries' && entries'[r.0].serial == r.1 {
      assert r in inFlight || r == (ip, w.serial);
    }
    if ip !in entries {
      assert (ip, w.serial) !in inFlight;
    }
    forall k | k in entries' ensures more[(k, entries'[k].serial)] == entries'[k].pending {
      assert k != ip ==> more[(k, entries'[k].serial)] == inFlight[(k, entries[k].serial)];
    }
  }

  lemma SubtractKeepsReserved(inFlight: multiset<(Ip, nat)>, entries: Entries, next: nat, ip: Ip, w: Window)
    requires Reserved(inFlight, entries, next) && (ip, w.serial) in inFlight
    requires w.pending == PendingOf(entries, ip) - 1
    ensures ip in entries && entries[ip].serial == w.serial
    ensures Reserved(inFlight - multiset{(ip, w.serial)}, entries[ip := w], next)
  {
    var less, entries' := inFlight - multiset{(ip, w.serial)}, entries[ip := w];
    forall r | r in less ensures r in inFlight {}
    forall k | k in entries' ensures less[(k, entries'[k].serial)] == entries'[k].pending {
      assert k != ip ==> less[(k, entries'[k].serial)] == inFlight[(k, entries[k].serial)];
    }
  }

  /** One address after expiry: gone if nothing is left to count. */
  function PrunedEntry(entries: Entries, ip: Ip, now: real): Entries
    requires ip in entries
  {
    var w := Pruned(entries[ip], now);
    if Idle(w) then entries - {ip} else entries[ip := w]
  }

  ghost predicate PrunedTo(entries: Entries, before: Entries, keys: seq<Ip>, i: nat, now: real)
    requires i <= |keys|
  {
    && (forall j :: i <= j < |keys| ==> keys[j] in entries && keys[j] in before && entries[keys[j]] == before[keys[j]])
    && (forall j :: 0 <= j < i ==> IsPruned(entries, before, keys[j], now))
    && (forall k :: k in entries ==> k in before && entries[k].serial == before[k].serial)
  }

  predicate IsPruned(entries: Entries, before: Entries, k: Ip, now: real) {
    && FailuresOf(entries, k) == Recent(FailuresOf(before, k), now - WINDOW)
    && PendingOf(entries, k) == PendingOf(before, k)
    && (k in entries ==> !Idle(entries[k]))
  }

  lemma PruneStep(entries: Entries, before: Entries, keys: seq<Ip>, i: nat, now: real)
    requires i < |keys| && Distinct(keys) && PrunedTo(entries, before, keys, i, now)
    ensures PrunedTo(PrunedEntry(entries, keys[i], now), before, keys, i + 1, now)
  {
    var next := PrunedEntry(entries, keys[i], now);
    forall j | 0 <= j < i + 1 ensures IsPruned(next, before, keys[j], now) {
      assert j < i ==> keys[j] != keys[i] && IsPruned(entries, before, keys[j], now);
    }
  }

  lemma PruneDone(entries: Entries, before: Entries, keys: seq<Ip>, now: real)
    requires PrunedTo(entries, before, keys, |keys|, now) && Listed(keys, before)
    ensures forall k :: IsPruned(entries, before, k, now)
  {
    forall k ensures IsPruned(entries, before, k, now) {
      if k in before {
        var j :| 0 <= j < |keys| && keys[j] == k;
        assert IsPruned(entries, before, keys[j], now);
      } else {
        assert k !in entries;
      }
    }
  }

  /** What admission answers for `failures` and `pending` of an address, and what it did to the windows. */
  ghost predicate Decided(a: Admission, ip: Ip, failures: seq<real>, pending: nat, now: real, entries: Entries,
                          before: multiset<(Ip, nat)>, after: multiset<(Ip, nat)>)
  {
    var full := |failures| + pending >= 5;
    match a
    case Admitted(serial) =>
      && !full && ip in entries && entries[ip].failures == failures
      && entries[ip].pending == pending + 1 && entries[ip].serial == serial
      && after == before + multiset{(ip, serial)}
    case Refused(retry) =>
      && after == before && 1 <= retry <= 300
      && if full then retry == Retry(failures, pending, now)
         else retry == 1 && ip !in entries && |entries| == 256
              && forall k :: k in entries ==> entries[k].pending > 0
  }

  /** Whatever is the least recently used idle window was so before failures expired, too. */
  ghost predicate OldestStands(order: seq<Ip>, entries: Entries, first: seq<Ip>, before: Entries, now: real) {
    forall v :: v in entries && entries[v].pending == 0 && Oldest(order, entries, v) ==>
      PendingOf(before, v) == 0 && LeastRecent(first, before, v, now)
  }

  lemma PrunedOldestStands(entries: Entries, first: seq<Ip>, before: Entries, now: real)
    requires forall k :: IsPruned(entries, before, k, now)
    ensures OldestStands(Staying(first, entries.Keys), entries, first, before, now)
  {
    forall v | v in entries && entries[v].pending == 0 && Oldest(Staying(first, entries.Keys), entries, v)
      ensures PendingOf(before, v) == 0 && LeastRecent(first, before, v, now)
    {
      assert IsPruned(entries, before, v, now);
      OldestIsLeastRecent(first, before, entries, v, now);
    }
  }

  lemma PruneKeepsRecord(log: Log, entries: Entries, watched: Ip, ip: Ip, now: real)
    requires Record(log, FailuresOf(entries, watched), now) && ip in entries
    ensures Record(log, FailuresOf(PrunedEntry(entries, ip, now), watched), now)
  {
    if ip == watched {
      PruneKeeps(log, FailuresOf(entries, watched), now);
    } else {
      assert FailuresOf(PrunedEntry(entries, ip, now), watched) == FailuresOf(entries, watched);
    }
  }

  /** Every address used less recently has an attempt in flight, or nothing left to count. */
  ghost predicate LeastRecent(order: seq<Ip>, entries: Entries, victim: Ip, now: real) {
    exists i :: 0 <= i < |order| && order[i] == victim
      && forall j :: 0 <= j < i ==>
           PendingOf(entries, order[j]) > 0 || Recent(FailuresOf(entries, order[j]), now - WINDOW) == []
  }

  lemma OldestIsLeastRecent(order: seq<Ip>, entries: Entries, pruned: Entries, victim: Ip, now: real)
    requires Oldest(Staying(order, pruned.Keys), pruned, victim) && forall k :: IsPruned(pruned, entries, k, now)
    ensures LeastRecent(order, entries, victim, now)
  {
    OldestIsFirstIdle(order, pruned, victim);
    var i :| 0 <= i < |order| && order[i] == victim
             && forall j :: 0 <= j < i ==> order[j] !in pruned || PendingOf(pruned, order[j]) > 0;
    forall j | 0 <= j < i
      ensures PendingOf(entries, order[j]) > 0 || Recent(FailuresOf(entries, order[j]), now - WINDOW) == []
    {
      assert IsPruned(pruned, entries, order[j], now);
    }
  }

  class Limiter {
    var entries: Entries
    var order: seq<Ip>              // least recently used first
    var now: real
    var next: nat
    ghost const watched: Ip         // any address; what is proved of it holds of every one
    ghost var log: Log              // its failures since its last success or eviction
    ghost var inFlight: multiset<(Ip, nat)>  // reservations not yet finished

    ghost predicate Valid()
      reads this
    {
      Listed(order, entries) && Bounded(entries) && Reserved(inFlight, entries, next)
        && Record(log, FailuresOf(entries, watched), now)
    }

    constructor (now: real, ghost watched: Ip)
      ensures Valid() && this.watched == watched && entries == map[] && inFlight == multiset{} && log == Empty
    {
      entries, order, this.now, next := map[], [], now, 0;
      this.watched, log, inFlight := watched, Empty, multiset{};
    }

    /** `monotonic`. */
    method Clock()
      requires Valid()
      modifies this`now
      ensures Valid() && now >= old(now)
    {
      var d: real := *;
      if d > 0.0 {
        TimePasses(log, FailuresOf(entries, watched), now, now + d);
        now := now + d;
      }
    }

    /** One address of `_prune`. */
    method PruneOne(ip: Ip)
      requires Valid() && ip in entries
      modifies this`entries, this`order
      ensures Valid() && entries == PrunedEntry(old(entries), ip, now) && |entries| <= |old(entries)|
      ensures order == if ip in entries then old(order) else Without(old(order), ip)
    {
      var w := Pruned(entries[ip], now);
      PruneKeepsRecord(log, entries, watched, ip, now);
      if Idle(w) {
        DropKeepsListed(order, entries, ip);
        DropKeepsBounded(entries, ip);
        Vanish(ip);
      } else {
        Shrink(ip, w);
      }
    }

    /** What stays listed keeps its place. */
    method PruneListed(ip: Ip, ghost first: seq<Ip>)
      requires Valid() && ip in entries && order == Staying(first, entries.Keys)
      modifies this`entries, this`order
      ensures Valid() && entries == PrunedEntry(old(entries), ip, now) && |entries| <= |old(entries)|
      ensures order == Staying(first, entries.Keys)
    {
      WithoutStaying(first, entries.Keys, ip);
      PruneOne(ip);
      assert entries.Keys == if ip in entries then old(entries).Keys else old(entries).Keys - {ip};
    }

    method Shrink(ip: Ip, w: Window)
      requires ip in entries && Listed(order, entries) && Bounded(entries) && Reserved(inFlight, entries, next)
      requires Record(log, FailuresOf(entries[ip := w], watched), now)
      requires w == entries[ip].(failures := w.failures) && |w.failures| <= |entries[ip].failures|
      modifies this`entries
      ensures Valid() && entries == old(entries)[ip := w] && |entries| <= |old(entries)|
    {
      UpdateKeepsReserved(inFlight, entries, next, ip, w);
      PutKeepsBounded(entries, ip, w);
      assert entries[ip := w].Keys == entries.Keys;
      entries := entries[ip := w];
    }

    method Vanish(ip: Ip)
      requires ip in entries && Listed(Without(order, ip), entries - {ip}) && Bounded(entries - {ip})
      requires Reserved(inFlight, entries, next) && entries[ip].pending == 0
      requires Record(log, FailuresOf(entries - {ip}, watched), now)
      modifies this`entries, this`order
      ensures Valid() && entries == old(entries) - {ip} && order == Without(old(order), ip)
    {
      DropKeepsReserved(inFlight, entries, next, ip);
      order := Without(order, ip);
      entries := entries - {ip};
    }

    /** `_prune`: expired failures go everywhere, and so do windows with nothing left to count. */
    method Prune()
      requires Valid()
      modifies this`entries, this`order
      ensures Valid() && |entries| <= |old(entries)|
      ensures forall k :: IsPruned(entries, old(entries), k, now)
      ensures forall k :: k in entries ==> k in old(entries) && entries[k].serial == old(entries)[k].serial
      ensures order == Staying(old(order), entries.Keys)
    {
      var keys := order;
      AllStay(order, entries.Keys);
      for i := 0 to |keys|
        invariant Valid() && |entries| <= |old(entries)|
        invariant order == Staying(old(order), entries.Keys)
        invariant PrunedTo(entries, old(entries), keys, i, now)
      {
        PruneStep(entries, old(entries), keys, i, now);
        PruneListed(keys[i], old(order));
      }
      PruneDone(entries, old(entries), keys, now);
    }

    /** How every operation starts: read the clock, let failures expire. */
    method Refresh()
      requires Valid()
      modifies this`now, this`entries, this`order
      ensures Valid() && now >= old(now) && |entries| <= |old(entries)|
      ensures forall k :: IsPruned(entries, old(entries), k, now)
      ensures forall k :: k in entries ==> k in old(entries)
      ensures order == Staying(old(order), entries.Keys)
    {
      Clock();
      Prune();
    }

    /** The first window, least recently used first, that no attempt in flight holds. */
    method FindVictim() returns (victim: Option<Ip>)
      requires Valid()
      ensures victim.Some? ==> victim.value in entries && entries[victim.value].pending == 0
      ensures victim.None? ==> forall k :: k in entries ==> entries[k].pending > 0
      ensures victim.Some? ==> Oldest(order, entries, victim.value)
    {
      for i := 0 to |order|
        invariant forall j :: 0 <= j < i ==> order[j] in entries && entries[order[j]].pending > 0
      {
        if entries[order[i]].pending == 0 {
          return Some(order[i]);
        }
      }
      victim := None;
    }

    /** Eviction forgets an address together with its record; nobody in flight can notice. */
    method Evict(ip: Ip)
      requires Valid() && ip in entries && entries[ip].pending == 0
      modifies this`entries, this`order, this`log
      ensures Valid() && entries == old(entries) - {ip} && log == if ip == watched then Empty else old(log)
    {
      DropKeepsListed(order, entries, ip);
      DropKeepsBounded(entries, ip);
      assert FailuresOf(entries - {ip}, watched) == if ip == watched then [] else FailuresOf(entries, watched);
      log := if ip == watched then Empty else log;
      Vanish(ip);
    }

    /** The end of `begin`: a window with room takes one more reservation. */
    method Reserve(ip: Ip) returns (serial: nat)
      requires Valid() && |FailuresOf(entries, ip)| + PendingOf(entries, ip) < LIMIT
               && (ip in entries || |entries| < ENTRIES)
      modifies this`entries, this`order, this`next, this`inFlight, this`log
      ensures Valid() && inFlight == old(inFlight) + multiset{(ip, serial)} && log == old(log)
      ensures entries == old(entries)[ip := Window(FailuresOf(old(entries), ip), PendingOf(old(entries), ip) + 1,
                serial)]
      ensures order == Touched(old(order), ip)
    {
      var w := if ip in entries then entries[ip] else Window([], 0, next);
      w := w.(pending := w.pending + 1);
      serial := w.serial;
      AddKeepsReserved(inFlight, entries, next, ip, w);
      TouchKeepsListed(order, entries, ip, w);
      PutKeepsBounded(entries, ip, w);
      assert FailuresOf(entries[ip := w], watched) == FailuresOf(entries, watched);
      Install(ip, w, if ip in entries then next else next + 1, inFlight + multiset{(ip, serial)}, log);
    }

    /** A window takes its new value and becomes the most recently used one. */
    method Install(ip: Ip, w: Window, n: nat, ghost flight: multiset<(Ip, nat)>, ghost record: Log)
      requires Listed(Touched(order, ip), entries[ip := w]) && Bounded(entries[ip := w])
      requires Reserved(flight, entries[ip := w], n) && Record(record, FailuresOf(entries[ip := w], watched), now)
      modifies this`entries, this`order, this`next, this`inFlight, this`log
      ensures Valid() && entries == old(entries)[ip := w] && order == Touched(old(order), ip)
      ensures next == n && inFlight == flight && log == record
    {
      entries, order, next := entries[ip := w], Touched(order, ip), n;
      inFlight, log := flight, record;
    }

    /**
      `begin`: refused exactly when the address has five failures and attempts counted, or when it has
      no window and every one of the 256 windows is held by an attempt in flight.
    */
    method Begin(ip: Ip) returns (a: Admission, ghost victim: Option<Ip>)
      requires Valid()
      modifies this
      ensures Valid() && now >= old(now)
      ensures Decided(a, ip, Recent(FailuresOf(old(entries), ip), now - WINDOW), PendingOf(old(entries), ip), now,
                      entries, old(inFlight), inFlight)
      ensures a.Refused? ==> victim.None?
      ensures victim.Some? ==> victim.value != ip && PendingOf(old(entries), victim.value) == 0
      ensures victim.Some? ==> LeastRecent(old(order), old(entries), victim.value, now)
      ensures a.Admitted? ==> order != [] && order[|order| - 1] == ip && |entries| <= 256
      ensures log == if victim == Some(watched) then Empty else old(log)
    {
      ghost var f, p := RefreshFor(ip);
      a, victim := Decide(ip, f, p, inFlight);
    }

    /** What one address has left once failures have expired. */
    method RefreshFor(ip: Ip) returns (ghost failures: seq<real>, ghost pending: nat)
      requires Valid()
      modifies this`now, this`entries, this`order
      ensures Valid() && now >= old(now)
      ensures failures == FailuresOf(entries, ip) && failures == Recent(FailuresOf(old(entries), ip), now - WINDOW)
      ensures pending == PendingOf(entries, ip) == PendingOf(old(entries), ip)
      ensures OldestStands(order, entries, old(order), old(entries), now)
    {
      Refresh();
      failures, pending := FailuresOf(entries, ip), PendingOf(entries, ip);
      assert IsPruned(entries, old(entries), ip, now);
      PrunedOldestStands(entries, old(order), old(entries), now);
    }

    /** `begin` once expired failures are gone. */
    method Decide(ip: Ip, ghost f: seq<real>, ghost p: nat, ghost before: multiset<(Ip, nat)>)
      returns (a: Admission, ghost victim: Option<Ip>)
      requires Valid() && f == FailuresOf(entries, ip) && p == PendingOf(entries, ip) && before == inFlight
      modifies this`entries, this`order, this`next, this`inFlight, this`log
      ensures Valid()
      ensures Decided(a, ip, f, p, now, entries, before, inFlight)
      ensures a.Refused? ==> victim.None?
      ensures victim.Some? ==>
                ip !in old(entries) && victim.value in old(entries)
                && old(entries)[victim.value].pending == 0 && |old(entries)| == ENTRIES
                && Oldest(old(order), old(entries), victim.value)
      ensures a.Admitted? ==> order != [] && order[|order| - 1] == ip
      ensures log == if victim == Some(watched) then Empty else old(log)
    {
      var retry := Retry(FailuresOf(entries, ip), PendingOf(entries, ip), now);
      if retry != 0 {
        return Refused(retry), None;
      }
      a, victim := Admit(ip);
    }

    /** Room for one more reservation, if need be in place of the least recently used idle window. */
    method Admit(ip: Ip) returns (a: Admission, ghost victim: Option<Ip>)
      requires Valid() && |FailuresOf(entries, ip)| + PendingOf(entries, ip) < LIMIT
      modifies this`entries, this`order, this`next, this`inFlight, this`log
      ensures Valid()
      ensures a.Admitted? ==> inFlight == old(inFlight) + multiset{(ip, a.serial)} && ip in entries
                              && entries[ip] == Window(FailuresOf(old(entries), ip),
                                PendingOf(old(entries), ip) + 1, a.serial)
      ensures a.Refused? ==> a.retry == 1 && victim.None? && inFlight == old(inFlight) && entries == old(entries)
                             && ip !in entries && |entries| == ENTRIES
                             && forall k :: k in entries ==> entries[k].pending > 0
      ensures victim.Some? ==>
                ip !in old(entries) && victim.value in old(entries)
                && old(entries)[victim.value].pending == 0 && |old(entries)| == ENTRIES
                && Oldest(old(order), old(entries), victim.value)
      ensures a.Admitted? ==> order != [] && order[|order| - 1] == ip
      ensures log == if victim == Some(watched) then Empty else old(log)
    {
      victim := None;
      if ip !in entries && |entries| == ENTRIES {
        var found := FindVictim();
        if found.None? {
          return Refused(1), None;
        }
        victim := found;
        Evict(found.value);
      }
      var serial := Reserve(ip);
      a := Admitted(serial);
    }

    /**
      `finish`: the attempt still finds the very window it reserved. A failure takes the place of the
      reservation, a success forgets the record.
    */
    method Finish(ip: Ip, serial: nat, success: bool, failed: bool)
      requires Valid() && (ip, serial) in inFlight
      modifies this
      ensures Valid() && now >= old(now) && inFlight == old(inFlight) - multiset{(ip, serial)}
      ensures ip in old(entries) && old(entries)[ip].serial == serial
      ensures log == if ip != watched then old(log) else if success then Empty
                else if failed then Failed(old(log), now) else old(log)
      ensures order == if ip in entries then Touched(old(order), ip) else Without(old(order), ip)
      ensures var w := old(entries)[ip];
              var f := if success then [] else if failed then w.failures + [now] else w.failures;
              entries == if f == [] && w.pending == 1 then old(entries) - {ip}
                else old(entries)[ip := Window(f, w.pending - 1, serial)]
    {
      Clock();
      var w := entries[ip];
      var f := if success then [] else if failed then w.failures + [now] else w.failures;
      if ip == watched && failed && !success {
        RecordKeepsSpaced(log, w.failures, now);
      }
      Release(ip, Window(f, w.pending - 1, serial),
              if ip != watched then log else if success then Empty else if failed then Failed(log, now) else log);
    }

    /** Give up one reservation on a window, with its failures as they now are. */
    method Release(ip: Ip, w: Window, ghost record: Log)
      requires Valid() && (ip, w.serial) in inFlight && w.pending == PendingOf(entries, ip) - 1
      requires |w.failures| + w.pending <= LIMIT
      requires if ip == watched then Record(record, w.failures, now) else record == log
      modifies this`entries, this`order, this`next, this`inFlight, this`log
      ensures Valid() && inFlight == old(inFlight) - multiset{(ip, w.serial)} && log == record
      ensures entries == if Idle(w) then old(entries) - {ip} else old(entries)[ip := w]
      ensures order == if Idle(w) then Without(old(order), ip) else Touched(old(order), ip)
    {
      assert FailuresOf(entries[ip := w], watched) == if ip == watched then w.failures
             else FailuresOf(entries, watched);
      ReturnTo(ip, w, record);
      if Idle(w) {
        DropTouched(ip, old(entries), old(order));
      }
    }

    /** A window just put back that counts nothing goes, as though it had only been taken out. */
    method DropTouched(ip: Ip, ghost before: Entries, ghost first: seq<Ip>)
      requires Valid() && ip in entries && Idle(entries[ip])
      requires entries == before[ip := entries[ip]] && order == Touched(first, ip)
      modifies this`entries, this`order
      ensures Valid() && entries == before - {ip} && order == Without(first, ip)
    {
      WithoutTouched(first, ip);
      DropIdle(ip);
    }

    method DropIdle(ip: Ip)
      requires Valid() && ip in entries && Idle(entries[ip])
      modifies this`entries, this`order
      ensures Valid() && entries == old(entries) - {ip} && order == Without(old(order), ip)
    {
      DropKeepsListed(order, entries, ip);
      DropKeepsBounded(entries, ip);
      assert FailuresOf(entries - {ip}, watched) == FailuresOf(entries, watched);
      Vanish(ip);
    }

    method ReturnTo(ip: Ip, w: Window, ghost record: Log)
      requires Valid() && (ip, w.serial) in inFlight && w.pending == PendingOf(entries, ip) - 1
      requires |w.failures| + w.pending <= LIMIT && Record(record, FailuresOf(entries[ip := w], watched), now)
      modifies this`entries, this`order, this`next, this`inFlight, this`log
      ensures Valid() && inFlight == old(inFlight) - multiset{(ip, w.serial)} && log == record
      ensures entries == old(entries)[ip := w] && ip in old(entries) && order == Touched(old(order), ip)
    {
      SubtractKeepsReserved(inFlight, entries, next, ip, w);
      TouchKeepsListed(order, entries, ip, w);
      PutKeepsBounded(entries, ip, w);
      Install(ip, w, next, inFlight - multiset{(ip, w.serial)}, record);
    }

    /** `retry_after`: what `begin` would ask for, without reserving anything. */
    method RetryAfter(ip: Ip) returns (retry: int)
      requires Valid()
      modifies this`now, this`entries, this`order
      ensures Valid() && now >= old(now)
      ensures retry == Retry(Recent(FailuresOf(old(entries), ip), now - WINDOW), PendingOf(old(entries), ip), now)
    {
      Refresh();
      assert IsPruned(entries, old(entries), ip, now);
      retry := Retry(FailuresOf(entries, ip), PendingOf(entries, ip), now);
    }
  }
}
