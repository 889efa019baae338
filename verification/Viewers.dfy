/** Viewer counts of the streams (core/service/stream.go). */
module Viewers {
  type User = nat
  type Address = string
  type Counts = map<Address, nat>
  type Table = map<User, Counts>

  datatype Call = Add(user: User, address: Address) | Remove(user: User, address: Address)

  /** A StreamViewers event. */
  datatype Published = Viewers(user: User, number: nat)

  // ---- The reference: one saturating counter for each user and address ----

  /** Adds minus removes of one address, never below zero. */
  function Watching(calls: seq<Call>, user: User, address: Address): nat {
    if calls == [] then 0
    else
      var n := Watching(calls[..|calls| - 1], user, address);
      match calls[|calls| - 1]
      case Add(u, a) => if u == user && a == address then n + 1 else n
      case Remove(u, a) => if u == user && a == address && n > 0 then n - 1 else n
  }

  /** The distinct addresses that are watching a user. */
  function Watchers(calls: seq<Call>, user: User): set<Address> {
    set i | 0 <= i < |calls| && Watching(calls, user, calls[i].address) > 0 :: calls[i].address
  }

  /** The number that listeners for a user saw last, 0 when there was none. */
  function LastPublished(log: seq<Published>, user: User): nat {
    if log == [] then 0
    else if log[|log| - 1].user == user then log[|log| - 1].number
    else LastPublished(log[..|log| - 1], user)
  }

  // ---- One call on the nested table ----

  function CountsOf(table: Table, user: User): Counts {
    if user in table then table[user] else map[]
  }

  function CountOf(table: Table, user: User, address: Address): nat {
    if address in CountsOf(table, user) then CountsOf(table, user)[address] else 0
  }

  function WithCount(counts: Counts, address: Address, n: nat): Counts {
    if n == 0 then counts - {address} else counts[address := n]
  }

  function WithCounts(table: Table, user: User, counts: Counts): Table {
    if counts == map[] then table - {user} else table[user := counts]
  }

  function Apply(table: Table, call: Call): Table {
    var counts, n := CountsOf(table, call.user), CountOf(table, call.user, call.address);
    if call.Remove? && n == 0 then table
    else WithCounts(table, call.user, WithCount(counts, call.address, if call.Add? then n + 1 else n - 1))
  }

  /** A call is silent when it removes from a user without viewers, or when the address goes on watching. */
  predicate Silent(table: Table, call: Call) {
    call.Remove? && (call.user !in table || CountOf(table, call.user, call.address) > 1)
  }

  function Announce(table: Table, call: Call): seq<Published> {
    if Silent(table, call) then [] else [Viewers(call.user, |CountsOf(Apply(table, call), call.user)|)]
  }

  // ---- Whole runs ----

  function TableAfter(calls: seq<Call>): Table {
    if calls == [] then map[] else Apply(TableAfter(calls[..|calls| - 1]), calls[|calls| - 1])
  }

  function LogAfter(calls: seq<Call>): seq<Published> {
    if calls == [] then []
    else LogAfter(calls[..|calls| - 1]) + Announce(TableAfter(calls[..|calls| - 1]), calls[|calls| - 1])
  }

  lemma OneMore(calls: seq<Call>, call: Call)
    ensures TableAfter(calls + [call]) == Apply(TableAfter(calls), call)
    ensures LogAfter(calls + [call]) == LogAfter(calls) + Announce(TableAfter(calls), call)
  {
    assert (calls + [call])[..|calls|] == calls;
  }

  /** No inner map is empty and every count in it is positive. */
  ghost predicate Tidy(table: Table) {
    forall user :: user in table ==>
      table[user] != map[] && forall address :: address in table[user] ==> table[user][address] > 0
  }

  lemma ApplyKeepsTidy(table: Table, call: Call)
    requires Tidy(table)
    ensures Tidy(Apply(table, call))
  {
  }

  lemma {:induction false} RunsAreTidy(calls: seq<Call>)
    ensures Tidy(TableAfter(calls))
  {
    if calls != [] {
      RunsAreTidy(calls[..|calls| - 1]);
      ApplyKeepsTidy(TableAfter(calls[..|calls| - 1]), calls[|calls| - 1]);
    }
  }

  lemma ApplyCounts(table: Table, call: Call, user: User, address: Address)
    requires Tidy(table)
    ensures CountOf(Apply(table, call), user, address) ==
      var n := CountOf(table, user, address);
      if call.user != user || call.address != address then n
      else if call.Add? then n + 1
      else if n > 0 then n - 1
      else 0
  {
  }

  /** Every stored count is the saturating counter of its user and address. */
  lemma {:induction false} CountsEveryAddress(calls: seq<Call>, user: User, address: Address)
    ensures CountOf(TableAfter(calls), user, address) == Watching(calls, user, address)
  {
    if calls != [] {
      var before := calls[..|calls| - 1];
      CountsEveryAddress(before, user, address);
      RunsAreTidy(before);
      ApplyCounts(TableAfter(before), calls[|calls| - 1], user, address);
    }
  }

  lemma {:induction false} WatchersWereAdded(calls: seq<Call>, user: User, address: Address)
    requires Watching(calls, user, address) > 0
    ensures address in Watchers(calls, user)
  {
    var i := LastNamed(calls, user, address);
  }

  lemma {:induction false} LastNamed(calls: seq<Call>, user: User, address: Address) returns (i: nat)
    requires Watching(calls, user, address) > 0
    ensures i < |calls| && calls[i].address == address
  {
    var last := |calls| - 1;
    if calls[last].address == address {
      i := last;
    } else {
      i := LastNamed(calls[..last], user, address);
    }
  }

  /** The keys of a user's inner map are exactly the addresses watching. */
  lemma KeysAreWatchers(calls: seq<Call>, user: User)
    ensures CountsOf(TableAfter(calls), user).Keys == Watchers(calls, user)
  {
    RunsAreTidy(calls);
    forall address
      ensures address in CountsOf(TableAfter(calls), user) <==> address in Watchers(calls, user)
    {
      CountsEveryAddress(calls, user, address);
      if Watching(calls, user, address) > 0 {
        WatchersWereAdded(calls, user, address);
      }
    }
  }

  /** A call that publishes nothing changes no number of viewers. */
  lemma SilenceIsSafe(table: Table, call: Call, user: User)
    requires Tidy(table) && (Silent(table, call) || call.user != user)
    ensures |CountsOf(Apply(table, call), user)| == |CountsOf(table, user)|
  {
    if call.user == user && user in table {
      SameSize(CountsOf(Apply(table, call), user), CountsOf(table, user));
    }
  }

  lemma SameSize(a: Counts, b: Counts)
    requires a.Keys == b.Keys
    ensures |a| == |b|
  {
    assert |a.Keys| == |a| && |b.Keys| == |b|;
  }

  lemma LastAnnounced(log: seq<Published>, more: seq<Published>, user: User)
    requires |more| <= 1
    ensures LastPublished(log + more, user) == if more != [] && more[0].user == user then more[0].number else LastPublished(log, user)
  {
    if more == [] {
      assert log + more == log;
    } else {
      assert (log + more)[..|log + more| - 1] == log;
    }
  }

  lemma {:induction false} LastPublishedIsTableSize(calls: seq<Call>, user: User)
    ensures LastPublished(LogAfter(calls), user) == |CountsOf(TableAfter(calls), user)|
  {
    if calls != [] {
      var before, call := calls[..|calls| - 1], calls[|calls| - 1];
      LastPublishedIsTableSize(before, user);
      RunsAreTidy(before);
      var more := Announce(TableAfter(before), call);
      if more == [] || call.user != user {
        SilenceIsSafe(TableAfter(before), call, user);
      }
      LastAnnounced(LogAfter(before), more, user);
    }
  }

  /** Over every run the number published last for a user is the number of distinct addresses watching. */
  lemma PublishedNumberIsCurrent(calls: seq<Call>, user: User)
    ensures LastPublished(LogAfter(calls), user) == |Watchers(calls, user)|
  {
    LastPublishedIsTableSize(calls, user);
    KeysAreWatchers(calls, user);
    assert |CountsOf(TableAfter(calls), user)| == |CountsOf(TableAfter(calls), user).Keys|;
  }

  /** Which calls publish, and what: every add, and a remove exactly when the user has viewers and the address
      does not go on watching; always one event, with the number of distinct addresses after the call. */
  lemma PublishesExactly(calls: seq<Call>, call: Call)
    ensures var publishes := call.Add?
        || (Watchers(calls, call.user) != {} && Watching(calls, call.user, call.address) <= 1);
      LogAfter(calls + [call]) == LogAfter(calls)
        + if publishes then [Viewers(call.user, |Watchers(calls + [call], call.user)|)] else []
  {
    OneMore(calls, call);
    RunsAreTidy(calls);
    KeysAreWatchers(calls, call.user);
    KeysAreWatchers(calls + [call], call.user);
    CountsEveryAddress(calls, call.user, call.address);
    hide TableAfter;
    hide LogAfter;
    hide Watching;
    hide Watchers;
    hide Apply;
    var table, after := TableAfter(calls), TableAfter(calls + [call]);
    assert call.user in table <==> CountsOf(table, call.user).Keys != {};
    assert |CountsOf(after, call.user)| == |CountsOf(after, call.user).Keys|;
  }

  // ---- The service ----

  class StreamService {
    var viewers: Table
    var published: seq<Published>
    ghost var calls: seq<Call>

    constructor ()
      ensures Valid() && calls == []
    {
      viewers, published, calls := map[], [], [];
    }

    /** The state is that of the run of calls so far. */
    ghost predicate Valid()
      reads this
    {
      viewers == TableAfter(calls) && published == LogAfter(calls)
    }

    method PublishViewerEvent(user: User, number: nat)
      modifies this`published
      ensures published == old(published) + [Viewers(user, number)]
    {
      published := published + [Viewers(user, number)];
    }

    method AddViewer(user: User, address: Address)
      requires Valid()
      modifies this
      ensures Valid() && calls == old(calls) + [Add(user, address)]
    {
      hide TableAfter, LogAfter;
      OneMore(calls, Add(user, address));
      calls := calls + [Add(user, address)];
      var counts: Counts := map[];
      if user in viewers {
        counts := viewers[user];
      }
      var count := (if address in counts then counts[address] else 0) + 1;
      counts := counts[address := count];
      assert counts[address] == count;
      viewers := viewers[user := counts];
      PublishViewerEvent(user, |counts|);
    }

    method RemoveViewer(user: User, address: Address)
      requires Valid()
      modifies this
      ensures Valid() && calls == old(calls) + [Remove(user, address)]
    {
      hide TableAfter, LogAfter;
      RunsAreTidy(calls);
      OneMore(calls, Remove(user, address));
      calls := calls + [Remove(user, address)];
      if user !in viewers {
        return;
      }
      var counts := viewers[user];
      var count: int := (if address in counts then counts[address] else 0) - 1;
      if count > 0 {
        counts := counts[address := count];
        viewers := viewers[user := counts];
      } else {
        ghost var was := counts;
        counts := counts - {address};
        if |counts| == 0 {
          viewers := viewers - {user};
        } else {
          viewers := viewers[user := counts];
        }
        PublishViewerEvent(user, |counts|);
        assert address !in was ==> counts == was && old(viewers)[user := was] == old(viewers);
      }
    }
  }
}
