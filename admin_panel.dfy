/** The admin panel's fetchAdminData: scan every localStorage key for prompt
    arrays, union their uids with the registry's, join prompts to registry
    entries per user and compute the usage statistics. The clock reading now
    and today's local midnight are parameters. */
module AdminPanel {
  import opened Wrappers
  import opened Text
  import opened Records
  import opened Browser
  import opened Sequences
  import LocalStorageService
  import NotificationService
  import UserTrackingService

  const ScanPrefix := "ai_dashboard_prompts_"
  const DayMillis := 24 * 60 * 60 * 1000

  predicate IsPromptKey(key: string) {
    StartsWith(key, ScanPrefix)
  }

  /** key.replace('ai_dashboard_prompts_', ''): on a key that starts with the
      prefix, the first occurrence replaced is the prefix itself. */
  function UidOfKey(key: string): string
    requires IsPromptKey(key)
  {
    key[|ScanPrefix|..]
  }

  /** JSON.parse(localStorage.getItem(key) || '[]') inside its own try: the
      prompts of one scanned key, none when the parse throws. */
  function KeyPrompts(v: Stored): seq<Prompt> {
    match LocalStorageService.ParsePromptArray(v)
    case Success(ps) => ps
    case Failure(_) => []
  }

  function ScannedPrompts(items: map<string, Stored>, key: string): seq<Prompt> {
    if IsPromptKey(key) then KeyPrompts(Lookup(items, key)) else []
  }

  /** allPrompts after the loop has visited the keys of order. */
  function CollectPrompts(items: map<string, Stored>, order: seq<string>): seq<Prompt> {
    if order == [] then []
    else CollectPrompts(items, order[..|order| - 1]) + ScannedPrompts(items, order[|order| - 1])
  }

  /** userIds after the loop has visited the keys of order: the uid of every
      prompt key, added before its value is parsed. */
  function ScannedUids(order: seq<string>): (r: seq<string>)
    ensures Distinct(r)
  {
    if order == [] then []
    else
      var key := order[|order| - 1];
      var prev := ScannedUids(order[..|order| - 1]);
      if IsPromptKey(key) then SetAdd(prev, UidOfKey(key)) else prev
  }

  /** new Set([...userIds, ...Object.keys(userRegistry)]), in insertion order. */
  function AllUserIds(scanned: seq<string>, registryOrder: seq<string>): seq<string> {
    SetFromSeq(scanned + registryOrder)
  }

  /** The uids of the prompt keys among keys. */
  ghost function PromptKeyUids(keys: set<string>): set<string> {
    set k | k in keys && IsPromptKey(k) :: UidOfKey(k)
  }

  // ---------------------------------------------------------------- join

  /** A JavaScript Date: a time value, or the invalid date new Date(Infinity). */
  datatype JoinTime = At(millis: int) | InvalidDate

  datatype UserRow = UserRow(uid: string, email: string, promptCount: nat, lastActive: int, joinDate: JoinTime)

  datatype Stats = Stats(
    totalUsers: nat, totalPrompts: nat, activeUsers: nat, newUsersToday: nat, avgPromptsPerUser: nat)

  /** allPrompts.filter(p => p.uid === uid). */
  function PromptsOf(ps: seq<Prompt>, uid: string): (r: seq<Prompt>)
    ensures |r| <= |ps|
    ensures forall p :: p in r <==> p in ps && p.uid == uid
    ensures forall p :: multiset(r)[p] == if p.uid == uid then multiset(ps)[p] else 0
  {
    if ps == [] then []
    else
      assert ps == [ps[0]] + ps[1..];
      (if ps[0].uid == uid then [ps[0]] else []) + PromptsOf(ps[1..], uid)
  }

  /** Math.max(...ps.map(p => p.timestamp)) on a non-empty list. */
  function MaxTimestamp(ps: seq<Prompt>): (m: int)
    requires ps != []
    ensures forall p :: p in ps ==> p.timestamp <= m
    ensures exists p :: p in ps && p.timestamp == m
  {
    if |ps| == 1 then ps[0].timestamp
    else
      var rest := MaxTimestamp(ps[1..]);
      if ps[0].timestamp >= rest then ps[0].timestamp else rest
  }

  /** Math.min(...ps.map(p => p.timestamp)) on a non-empty list. */
  function MinTimestamp(ps: seq<Prompt>): (m: int)
    requires ps != []
    ensures forall p :: p in ps ==> m <= p.timestamp
    ensures exists p :: p in ps && p.timestamp == m
  {
    if |ps| == 1 then ps[0].timestamp
    else
      var rest := MinTimestamp(ps[1..]);
      if ps[0].timestamp <= rest then ps[0].timestamp else rest
  }

  /** registryData?.email || `user-${uid.slice(0, 8)}@example.com`. */
  function DisplayEmail(entry: Option<RegistryEntry>, uid: string): (r: string)
    ensures r != ""
  {
    if entry.Some? && entry.value.email != "" then entry.value.email
    else "user-" + Take(uid, 8) + "@example.com"
  }

  /** The latest prompt's time; without prompts, the first truthy (non-zero)
      one of lastLogin and registrationDate, else the clock. */
  function LastActive(ups: seq<Prompt>, entry: Option<RegistryEntry>, now: int): int {
    if ups != [] then MaxTimestamp(ups)
    else if entry.Some? && entry.value.lastLogin != 0 then entry.value.lastLogin
    else if entry.Some? && entry.value.registrationDate != 0 then entry.value.registrationDate
    else now
  }

  /** new Date(registryData?.registrationDate || Math.min(...timestamps) || Date.now()).
      Math.min() of nothing is Infinity, which is truthy, so a user with
      neither a registration date nor prompts gets the invalid date. */
  function JoinDate(ups: seq<Prompt>, entry: Option<RegistryEntry>, now: int): JoinTime {
    if entry.Some? && entry.value.registrationDate != 0 then At(entry.value.registrationDate)
    else if ups == [] then InvalidDate
    else if MinTimestamp(ups) != 0 then At(MinTimestamp(ups))
    else At(now)
  }

  function JoinUser(uid: string, prompts: seq<Prompt>, registry: map<string, RegistryEntry>, now: int): UserRow {
    var ups := PromptsOf(prompts, uid);
    var entry := if uid in registry then Some(registry[uid]) else None;
    UserRow(uid, DisplayEmail(entry, uid), |ups|, LastActive(ups, entry, now), JoinDate(ups, entry, now))
  }

  /** Array.from(allUserIds).map(uid => …). */
  function UserRows(ids: seq<string>, prompts: seq<Prompt>, registry: map<string, RegistryEntry>, now: int)
    : (rows: seq<UserRow>)
    ensures |rows| == |ids|
    ensures forall i :: 0 <= i < |ids| ==> rows[i] == JoinUser(ids[i], prompts, registry, now)
  {
    if ids == [] then [] else [JoinUser(ids[0], prompts, registry, now)] + UserRows(ids[1..], prompts, registry, now)
  }

  // ---------------------------------------------------------- statistics

  /** u.lastActive.getTime() > dayAgo. */
  predicate IsActive(u: UserRow, dayAgo: int) {
    u.lastActive > dayAgo
  }

  /** u.joinDate >= today: an invalid date compares false. */
  predicate JoinedSince(u: UserRow, midnight: int) {
    u.joinDate.At? && u.joinDate.millis >= midnight
  }

  function CountActive(users: seq<UserRow>, dayAgo: int): (n: nat)
    ensures n <= |users|
  {
    if users == [] then 0 else (if IsActive(users[0], dayAgo) then 1 else 0) + CountActive(users[1..], dayAgo)
  }

  function CountJoinedSince(users: seq<UserRow>, midnight: int): (n: nat)
    ensures n <= |users|
  {
    if users == [] then 0 else (if JoinedSince(users[0], midnight) then 1 else 0) + CountJoinedSince(users[1..], midnight)
  }

  /** The positions of the rows usersData.filter(test) keeps. */
  ghost function PassingIndices(users: seq<UserRow>, test: UserRow -> bool): set<nat> {
    set i: nat | i < |users| && test(users[i])
  }

  /** The positions of the rows usersData.filter(u => u.lastActive > dayAgo) keeps. */
  ghost function ActiveIndices(users: seq<UserRow>, dayAgo: int): set<nat> {
    PassingIndices(users, u => IsActive(u, dayAgo))
  }

  /** The positions of the rows usersData.filter(u => u.joinDate >= today) keeps. */
  ghost function JoinedIndices(users: seq<UserRow>, midnight: int): set<nat> {
    PassingIndices(users, u => JoinedSince(u, midnight))
  }

  ghost function Shift(s: set<nat>): set<nat> {
    set i | i in s :: i + 1
  }

  lemma {:induction false} ShiftCardinality(s: set<nat>)
    ensures |Shift(s)| == |s|
    decreases |s|
  {
    if s != {} {
      var x :| x in s;
      ShiftCardinality(s - {x});
      forall y ensures y in Shift(s) <==> y in Shift(s - {x}) + {x + 1} {
        if y in Shift(s) && y != x + 1 {
          var i :| i in s && y == i + 1;
          assert i in s - {x};
        }
        if y in Shift(s - {x}) {
          var i :| i in s - {x} && y == i + 1;
          assert i in s;
        }
      }
      assert Shift(s) == Shift(s - {x}) + {x + 1};
      assert x + 1 !in Shift(s - {x});
    }
  }

  /** activeUsers is the length of the filtered array: the number of rows
      whose lastActive is after dayAgo. */
  lemma {:induction false} CountActiveIsFilterLength(users: seq<UserRow>, dayAgo: int)
    ensures CountActive(users, dayAgo) == |ActiveIndices(users, dayAgo)|
  {
    if users != [] {
      var rest := ActiveIndices(users[1..], dayAgo);
      CountActiveIsFilterLength(users[1..], dayAgo);
      ShiftCardinality(rest);
      PassingIndicesSplit(users, u => IsActive(u, dayAgo));
      assert 0 !in Shift(rest);
    } else {
      assert ActiveIndices(users, dayAgo) == {};
    }
  }

  /** The rows after the first pass at their positions shifted by one. */
  lemma PassingIndicesSplit(users: seq<UserRow>, test: UserRow -> bool)
    requires users != []
    ensures PassingIndices(users, test)
         == (if test(users[0]) then {0} else {}) + Shift(PassingIndices(users[1..], test))
  {
    var rest := PassingIndices(users[1..], test);
    forall i: nat | i in PassingIndices(users, test) && i > 0 ensures i in Shift(rest) {
      assert users[i] == users[1..][i - 1];
      assert i - 1 in rest;
    }
    forall i | i in Shift(rest) ensures i in PassingIndices(users, test) {
      var j :| j in rest && i == j + 1;
      assert users[i] == users[1..][j];
    }
  }

  /** newUsersToday is the length of the filtered array: the number of rows
      whose joinDate is a valid date at or after midnight. */
  lemma {:induction false} CountJoinedSinceIsFilterLength(users: seq<UserRow>, midnight: int)
    ensures CountJoinedSince(users, midnight) == |JoinedIndices(users, midnight)|
  {
    if users != [] {
      var rest := JoinedIndices(users[1..], midnight);
      CountJoinedSinceIsFilterLength(users[1..], midnight);
      ShiftCardinality(rest);
      PassingIndicesSplit(users, u => JoinedSince(u, midnight));
      assert 0 !in Shift(rest);
    } else {
      assert JoinedIndices(users, midnight) == {};
    }
  }

  /** r is total / count rounded to the nearest integer, halves upwards. */
  predicate IsRoundHalfUp(total: nat, count: nat, r: int) {
    count * (2 * r - 1) <= 2 * total < count * (2 * r + 1)
  }

  /** Math.round(total / count) for naturals, in integer arithmetic. */
  function RoundedMean(total: nat, count: nat): (r: nat)
    requires count > 0
    ensures IsRoundHalfUp(total, count, r)
  {
    var q := (2 * total + count) / (2 * count);
    DivisionBounds(2 * total + count, 2 * count);
    assert count * (2 * q - 1) == 2 * count * q - count;
    assert count * (2 * q + 1) == 2 * count * q + count;
    q
  }

  lemma DivisionBounds(a: nat, b: nat)
    requires b > 0
    ensures b * (a / b) <= a < b * (a / b) + b
  {
  }

  /** Rounding half up has one answer, so RoundedMean is the only value with
      that property. */
  lemma RoundHalfUpUnique(total: nat, count: nat, r1: int, r2: int)
    requires count > 0 && IsRoundHalfUp(total, count, r1) && IsRoundHalfUp(total, count, r2)
    ensures r1 == r2
  {
    MulStrictCancel(count, 2 * r1 - 1, 2 * r2 + 1);
    MulStrictCancel(count, 2 * r2 - 1, 2 * r1 + 1);
  }

  lemma MulStrictCancel(c: int, a: int, b: int)
    requires c > 0 && c * a < c * b
    ensures a < b
  {
    assert c * b - c * a == c * (b - a);
  }

  function Statistics(users: seq<UserRow>, promptTotal: nat, now: int, midnight: int): (s: Stats)
    ensures s.totalUsers == |users| && s.totalPrompts == promptTotal
    ensures s.activeUsers <= s.totalUsers && s.newUsersToday <= s.totalUsers
    ensures s.activeUsers == |ActiveIndices(users, now - DayMillis)|
    ensures s.newUsersToday == |JoinedIndices(users, midnight)|
    ensures s.totalUsers == 0 ==> s.avgPromptsPerUser == 0
    ensures s.totalUsers > 0 ==> IsRoundHalfUp(promptTotal, s.totalUsers, s.avgPromptsPerUser)
  {
    CountActiveIsFilterLength(users, now - DayMillis);
    CountJoinedSinceIsFilterLength(users, midnight);
    Stats(
      |users|, promptTotal, CountActive(users, now - DayMillis), CountJoinedSince(users, midnight),
      if |users| > 0 then RoundedMean(promptTotal, |users|) else 0)
  }

  /** The Active/Inactive badge of the users table. */
  function StatusLabel(lastActive: int, now: int): string {
    if now - lastActive < DayMillis then "Active" else "Inactive"
  }

  // -------------------------------------------------------------- the view

  class AdminPanelView {
    var users: seq<UserRow>
    var prompts: seq<Prompt>
    var stats: Stats
    var loading: bool

    /** The initial state; the source leaves avgPromptsPerUser undefined
        until the first fetch, 0 here. */
    constructor ()
      ensures users == [] && prompts == [] && stats == Stats(0, 0, 0, 0, 0) && loading
    {
      users, prompts, stats, loading := [], [], Stats(0, 0, 0, 0, 0), true;
    }

    /** fetchAdminData. Returns, as ghost values, the order in which the
        browser listed the storage keys and the registry's keys. */
    method FetchAdminData(st: LocalStorage, now: int, midnight: int)
      returns (ghost keyOrder: seq<string>, ghost registryOrder: seq<string>)
      requires st.Valid()
      modifies this
      ensures IsEnumeration(keyOrder, st.items.Keys)
      ensures IsEnumeration(registryOrder, UserTrackingService.GetUserRegistry(st.items).Keys)
      ensures prompts == CollectPrompts(st.items, keyOrder)
      ensures forall p :: p in prompts <==>
        exists k :: k in st.items && IsPromptKey(k) && p in KeyPrompts(st.items[k])
      ensures users == UserRows(
        AllUserIds(ScannedUids(keyOrder), registryOrder), prompts,
        UserTrackingService.GetUserRegistry(st.items), now)
      ensures stats == Statistics(users, |prompts|, now, midnight)
      ensures stats.totalUsers == |PromptKeyUids(st.items.Keys) + UserTrackingService.GetUserRegistry(st.items).Keys|
      ensures !loading
    {
      var allPrompts, userIds;
      allPrompts, userIds, keyOrder := ScanStorage(st);
      var userRegistry := UserTrackingService.GetUserRegistry(st.items);
      var registryKeys := Enumerate(userRegistry.Keys);
      var allUserIds := AllUserIds(userIds, registryKeys);
      var usersData := UserRows(allUserIds, allPrompts, userRegistry, now);
      users := usersData;
      prompts := allPrompts;
      stats := Statistics(usersData, |allPrompts|, now, midnight);
      loading := false;
      registryOrder := registryKeys;
      TotalUsersIsUnionSize(st.items, keyOrder, registryKeys);
    }
  }

  /** The loop over localStorage.key(0 .. length - 1): every key with the
      prompt prefix adds its uid, then its parsed prompts if the parse does
      not throw. */
  method ScanStorage(st: LocalStorage) returns (allPrompts: seq<Prompt>, userIds: seq<string>, ghost keyOrder: seq<string>)
    requires st.Valid()
    ensures IsEnumeration(keyOrder, st.items.Keys)
    ensures allPrompts == CollectPrompts(st.items, keyOrder)
    ensures userIds == ScannedUids(keyOrder)
    ensures forall p :: p in allPrompts <==>
      exists k :: k in st.items && IsPromptKey(k) && p in KeyPrompts(st.items[k])
    ensures Distinct(userIds) && Elements(userIds) == PromptKeyUids(st.items.Keys)
  {
    allPrompts, userIds := [], [];
    var keys := Enumerate(st.items.Keys);
    for i := 0 to |keys|
      invariant allPrompts == CollectPrompts(st.items, keys[..i])
      invariant userIds == ScannedUids(keys[..i])
    {
      assert keys[..i + 1][..i] == keys[..i];
      var key := keys[i];
      if IsPromptKey(key) {
        var uid := UidOfKey(key);
        userIds := SetAdd(userIds, uid);
        var parsed := LocalStorageService.ParsePromptArray(Lookup(st.items, key));
        if parsed.Success? {
          allPrompts := allPrompts + parsed.value;
        }
      }
    }
    assert keys[..|keys|] == keys;
    keyOrder := keys;
    EnumerationElements(keys, st.items.Keys);
    ScannedUidsElements(keys);
    forall p ensures p in allPrompts <==> exists k :: k in st.items && IsPromptKey(k) && p in KeyPrompts(st.items[k]) {
      CollectedPromptsOrigin(st.items, keys, p);
    }
  }

  // ------------------------------------------------------------ the scan

  lemma {:induction false} ScannedUidsElements(order: seq<string>)
    ensures Elements(ScannedUids(order)) == PromptKeyUids(Elements(order))
  {
    if order != [] {
      var init := order[..|order| - 1];
      var key := order[|order| - 1];
      ScannedUidsElements(init);
      assert order == init + [key];
      assert Elements(order) == Elements(init) + {key};
      if IsPromptKey(key) {
        assert PromptKeyUids(Elements(order)) == PromptKeyUids(Elements(init)) + {UidOfKey(key)};
      } else {
        assert PromptKeyUids(Elements(order)) == PromptKeyUids(Elements(init));
      }
    }
  }

  /** totalUsers is the size of the union of the prompt keys' uids and the
      registry's uids. */
  lemma TotalUsersIsUnionSize(items: map<string, Stored>, keyOrder: seq<string>, registryOrder: seq<string>)
    requires IsEnumeration(keyOrder, items.Keys)
    requires IsEnumeration(registryOrder, UserTrackingService.GetUserRegistry(items).Keys)
    ensures |AllUserIds(ScannedUids(keyOrder), registryOrder)|
         == |PromptKeyUids(items.Keys) + UserTrackingService.GetUserRegistry(items).Keys|
  {
    var scanned := ScannedUids(keyOrder);
    var ids := AllUserIds(scanned, registryOrder);
    ScannedUidsElements(keyOrder);
    EnumerationElements(keyOrder, items.Keys);
    EnumerationElements(registryOrder, UserTrackingService.GetUserRegistry(items).Keys);
    ConcatElements(scanned, registryOrder);
    assert Elements(ids) == Elements(scanned + registryOrder);
    DistinctCardinality(ids);
  }

  /** The uid of a prompt key is counted as a user whatever the key holds,
      malformed text included: it is added before the value is parsed. */
  lemma PromptKeyUserAlwaysCounted(items: map<string, Stored>, keyOrder: seq<string>, registryOrder: seq<string>, key: string)
    requires IsEnumeration(keyOrder, items.Keys)
    requires Lookup(items, key) != Absent && IsPromptKey(key)
    ensures UidOfKey(key) in AllUserIds(ScannedUids(keyOrder), registryOrder)
  {
    ScannedUidsElements(keyOrder);
    assert key in Elements(keyOrder);
    assert UidOfKey(key) in PromptKeyUids(Elements(keyOrder));
    assert UidOfKey(key) in Elements(ScannedUids(keyOrder));
  }

  /** allPrompts holds exactly the prompts of the well-formed prompt keys
      visited: a prompt is collected if and only if some scanned key with
      the prefix holds it. */
  lemma {:induction false} CollectedPromptsOrigin(items: map<string, Stored>, order: seq<string>, p: Prompt)
    ensures p in CollectPrompts(items, order) <==>
      exists k :: k in order && IsPromptKey(k) && p in KeyPrompts(Lookup(items, k))
  {
    if order != [] {
      var init := order[..|order| - 1];
      var last := order[|order| - 1];
      assert order == init + [last];
      CollectedPromptsOrigin(items, init, p);
      if p in CollectPrompts(items, order) && p !in CollectPrompts(items, init) {
        assert p in ScannedPrompts(items, last);
        assert last in order && IsPromptKey(last) && p in KeyPrompts(Lookup(items, last));
      }
      if exists k :: k in order && IsPromptKey(k) && p in KeyPrompts(Lookup(items, k)) {
        var k :| k in order && IsPromptKey(k) && p in KeyPrompts(Lookup(items, k));
        if k != last {
          assert k in init;
        } else {
          assert p in ScannedPrompts(items, last);
        }
      }
    }
  }

  lemma {:induction false} CollectConcat(items: map<string, Stored>, a: seq<string>, b: seq<string>)
    ensures CollectPrompts(items, a + b) == CollectPrompts(items, a) + CollectPrompts(items, b)
  {
    if b != [] {
      var init := b[..|b| - 1];
      CollectConcat(items, a, init);
      assert (a + b)[..|a + b| - 1] == a + init;
      assert (a + b)[|a + b| - 1] == b[|b| - 1];
    } else {
      assert a + b == a;
    }
  }

  /** The prompts collected do not depend on the order in which the browser
      lists the keys: any two enumerations give the same multiset, hence the
      same totalPrompts. */
  lemma {:induction false} CollectOrderIrrelevant(items: map<string, Stored>, o1: seq<string>, o2: seq<string>)
    requires Distinct(o1) && Distinct(o2) && Elements(o1) == Elements(o2)
    ensures multiset(CollectPrompts(items, o1)) == multiset(CollectPrompts(items, o2))
    decreases |o1|
  {
    DistinctCardinality(o1);
    DistinctCardinality(o2);
    if o1 != [] {
      var k := o1[|o1| - 1];
      var init := o1[..|o1| - 1];
      assert o1 == init + [k];
      assert k in Elements(o2);
      var j :| 0 <= j < |o2| && o2[j] == k;
      var rest := RemoveAt(o2, j);
      assert Elements(init) == Elements(o1) - {k} by {
        assert Elements(o1) == Elements(init) + {k};
      }
      CollectOrderIrrelevant(items, init, rest);
      CollectWithout(items, o2, j);
    }
  }

  function RemoveAt(xs: seq<string>, j: nat): (r: seq<string>)
    requires j < |xs| && Distinct(xs)
    ensures Distinct(r) && Elements(r) == Elements(xs) - {xs[j]}
  {
    var r := xs[..j] + xs[j + 1..];
    assert Distinct(r) by {
      forall a, b | 0 <= a < b < |r| ensures r[a] != r[b] {
        var ia := if a < j then a else a + 1;
        var ib := if b < j then b else b + 1;
        assert r[a] == xs[ia] && r[b] == xs[ib];
      }
    }
    assert xs == xs[..j] + [xs[j]] + xs[j + 1..];
    assert Elements(xs) == Elements(xs[..j]) + {xs[j]} + Elements(xs[j + 1..]);
    r
  }

  lemma CollectWithout(items: map<string, Stored>, xs: seq<string>, j: nat)
    requires j < |xs| && Distinct(xs)
    ensures multiset(CollectPrompts(items, xs))
         == multiset(CollectPrompts(items, RemoveAt(xs, j))) + multiset(ScannedPrompts(items, xs[j]))
  {
    var before, after := xs[..j], xs[j + 1..];
    assert xs == before + [xs[j]] + after;
    CollectConcat(items, before + [xs[j]], after);
    CollectConcat(items, before, [xs[j]]);
    CollectConcat(items, before, after);
    assert [xs[j]][..0] == [];
  }

  /** Replacing a prompt key's value with any text (malformed, or the empty
      string) removes exactly that key's prompts from the total; its uid
      stays counted (PromptKeyUserAlwaysCounted). */
  lemma {:induction false} MalformedKeyDropsItsPrompts(items: map<string, Stored>, order: seq<string>, key: string, text: string)
    requires Distinct(order) && key in order && IsPromptKey(key)
    ensures |CollectPrompts(items[key := Raw(text)], order)| + |KeyPrompts(Lookup(items, key))|
         == |CollectPrompts(items, order)|
  {
    var init := order[..|order| - 1];
    var last := order[|order| - 1];
    assert order == init + [last];
    assert Distinct(init);
    if last == key {
      assert key !in init;
      CollectIgnoresOtherKeys(items, init, key, Raw(text));
    } else {
      assert key in init;
      MalformedKeyDropsItsPrompts(items, init, key, text);
    }
  }

  /** A write to a key that is not scanned, or not in the order, leaves the
      collected prompts as they were. */
  lemma {:induction false} CollectIgnoresOtherKeys(items: map<string, Stored>, order: seq<string>, key: string, v: Stored)
    requires key !in order || !IsPromptKey(key)
    ensures CollectPrompts(items[key := v], order) == CollectPrompts(items, order)
  {
    if order != [] {
      var init := order[..|order| - 1];
      assert order == init + [order[|order| - 1]];
      CollectIgnoresOtherKeys(items, init, key, v);
    }
  }

  /** The storage keys of the other stores never start with the scan prefix,
      and a prompt key's scanned uid is the uid it was saved under. */
  lemma StoreKeysAndScanPrefix(uid: string)
    ensures IsPromptKey(LocalStorageService.PromptsKey(uid))
    ensures UidOfKey(LocalStorageService.PromptsKey(uid)) == uid
    ensures !IsPromptKey(NotificationService.NotificationsKey(uid))
    ensures !IsPromptKey(UserTrackingService.RegistryKey)
    ensures !IsPromptKey(LocalStorageService.ChatKey)
  {
    var pk := LocalStorageService.PromptsKey(uid);
    assert pk == ScanPrefix + uid;
    assert pk[..|ScanPrefix|] == ScanPrefix;
    var nk := NotificationService.NotificationsKey(uid);
    assert nk[13] == 'n';
    assert ScanPrefix[13] == 'p';
  }

  // --------------------------------------------------- counts per user

  /** Every prompt stored under ai_dashboard_prompts_<u> carries uid u, as
      savePromptLocal writes them. */
  ghost predicate WellKeyed(items: map<string, Stored>) {
    forall k :: k in items && IsPromptKey(k) ==>
      forall p :: p in KeyPrompts(items[k]) ==> p.uid == UidOfKey(k)
  }

  /** Saving a prompt keeps storage well keyed. */
  lemma SavePreservesWellKeyed(items: map<string, Stored>, uid: string, prompt: string, idTime: nat, time: nat)
    requires WellKeyed(items)
    ensures WellKeyed(LocalStorageService.SavePrompt(items, uid, prompt, idTime, time).items)
  {
    var s := LocalStorageService.SavePrompt(items, uid, prompt, idTime, time);
    StoreKeysAndScanPrefix(uid);
    var pk := LocalStorageService.PromptsKey(uid);
    if s.result.Success? {
      var ps := LocalStorageService.GetPromptsLocal(items, uid).value;
      assert KeyPrompts(s.items[pk]) == ps + [s.result.value];
      assert pk in items ==> KeyPrompts(items[pk]) == ps;
    }
  }

  function CountIn(ps: seq<Prompt>, uids: set<string>): (n: nat)
    ensures n <= |ps|
  {
    if ps == [] then 0 else (if ps[0].uid in uids then 1 else 0) + CountIn(ps[1..], uids)
  }

  function SumPromptCounts(rows: seq<UserRow>): nat {
    if rows == [] then 0 else rows[0].promptCount + SumPromptCounts(rows[1..])
  }

  lemma {:induction false} CountInSplit(ps: seq<Prompt>, u: string, uids: set<string>)
    requires u !in uids
    ensures CountIn(ps, uids + {u}) == |PromptsOf(ps, u)| + CountIn(ps, uids)
  {
    if ps != [] {
      CountInSplit(ps[1..], u, uids);
    }
  }

  lemma {:induction false} CountInAll(ps: seq<Prompt>, uids: set<string>)
    requires forall p :: p in ps ==> p.uid in uids
    ensures CountIn(ps, uids) == |ps|
  {
    if ps != [] {
      assert ps[0] in ps;
      CountInAll(ps[1..], uids);
    }
  }

  lemma {:induction false} RowCountsAreCountIn(ids: seq<string>, ps: seq<Prompt>, registry: map<string, RegistryEntry>, now: int)
    requires Distinct(ids)
    ensures SumPromptCounts(UserRows(ids, ps, registry, now)) == CountIn(ps, Elements(ids))
  {
    if ids == [] {
      assert Elements(ids) == {};
      CountInNone(ps);
    } else {
      var u, rest := ids[0], ids[1..];
      assert Distinct(rest);
      RowCountsAreCountIn(rest, ps, registry, now);
      var rows := UserRows(ids, ps, registry, now);
      assert rows == [JoinUser(u, ps, registry, now)] + UserRows(rest, ps, registry, now);
      assert rows[1..] == UserRows(rest, ps, registry, now);
      assert rows[0].promptCount == |PromptsOf(ps, u)|;
      assert ids == [u] + rest;
      assert Elements(ids) == Elements(rest) + {u};
      assert u !in Elements(rest);
      CountInSplit(ps, u, Elements(rest));
    }
  }

  lemma {:induction false} CountInNone(ps: seq<Prompt>)
    ensures CountIn(ps, {}) == 0
  {
    if ps != [] {
      CountInNone(ps[1..]);
    }
  }

  lemma {:induction false} CollectedUidsScanned(items: map<string, Stored>, order: seq<string>)
    requires WellKeyed(items)
    requires forall k :: k in order ==> k in items
    ensures forall p :: p in CollectPrompts(items, order) ==> p.uid in ScannedUids(order)
  {
    if order != [] {
      var init := order[..|order| - 1];
      var key := order[|order| - 1];
      assert forall k :: k in init ==> k in order;
      CollectedUidsScanned(items, init);
      forall p | p in CollectPrompts(items, order) ensures p.uid in ScannedUids(order) {
        if p in CollectPrompts(items, init) {
          assert p.uid in ScannedUids(init);
        } else {
          assert p in ScannedPrompts(items, key);
          assert key in items;
        }
      }
    }
  }

  /** When storage is well keyed, the users' promptCounts add up to
      totalPrompts: every collected prompt is counted for exactly one user. */
  lemma PromptCountsSumToTotal(items: map<string, Stored>, keyOrder: seq<string>, registryOrder: seq<string>, now: int)
    requires WellKeyed(items)
    requires IsEnumeration(keyOrder, items.Keys)
    ensures var ps := CollectPrompts(items, keyOrder);
      SumPromptCounts(UserRows(AllUserIds(ScannedUids(keyOrder), registryOrder), ps,
                               UserTrackingService.GetUserRegistry(items), now)) == |ps|
  {
    var ps := CollectPrompts(items, keyOrder);
    var ids := AllUserIds(ScannedUids(keyOrder), registryOrder);
    CollectedUidsScanned(items, keyOrder);
    RowCountsAreCountIn(ids, ps, UserTrackingService.GetUserRegistry(items), now);
    CountInAll(ps, Elements(ids));
  }

  // ------------------------------------------------------ per-user facts

  /** With prompts, lastActive is the latest of the user's prompt times. */
  lemma LastActiveIsLatestPrompt(uid: string, prompts: seq<Prompt>, registry: map<string, RegistryEntry>, now: int)
    requires exists p :: p in prompts && p.uid == uid
    ensures var row := JoinUser(uid, prompts, registry, now);
      && (forall p :: p in prompts && p.uid == uid ==> p.timestamp <= row.lastActive)
      && (exists p :: p in prompts && p.uid == uid && p.timestamp == row.lastActive)
  {
    var p :| p in prompts && p.uid == uid;
    assert p in PromptsOf(prompts, uid);
  }

  /** The email column: the registry email when it is non-empty, else a
      placeholder built from the first eight characters of the uid. */
  lemma DisplayedEmail(uid: string, prompts: seq<Prompt>, registry: map<string, RegistryEntry>, now: int)
    ensures var row := JoinUser(uid, prompts, registry, now);
      && (uid in registry && registry[uid].email != "" ==> row.email == registry[uid].email)
      && (uid !in registry || registry[uid].email == "" ==>
            row.email == "user-" + uid[..if |uid| < 8 then |uid| else 8] + "@example.com")
  {
  }

  /** Without prompts, lastActive falls back, skipping zeros, to lastLogin,
      then registrationDate, then the clock. */
  lemma LastActiveWithoutPrompts(uid: string, prompts: seq<Prompt>, registry: map<string, RegistryEntry>, now: int)
    requires forall p :: p in prompts ==> p.uid != uid
    ensures var row := JoinUser(uid, prompts, registry, now);
      && (uid in registry && registry[uid].lastLogin != 0 ==> row.lastActive == registry[uid].lastLogin)
      && (uid in registry && registry[uid].lastLogin == 0 && registry[uid].registrationDate != 0 ==>
            row.lastActive == registry[uid].registrationDate)
      && (uid !in registry || (registry[uid].lastLogin == 0 && registry[uid].registrationDate == 0) ==>
            row.lastActive == now)
  {
    assert multiset(PromptsOf(prompts, uid)) == multiset{};
  }

  /** joinDate is a truthy registrationDate; failing that the earliest
      prompt time when it is non-zero, the clock when it is zero; and with
      neither a registration date nor prompts the invalid date, which is
      never counted as new today. */
  lemma JoinDateFacts(uid: string, prompts: seq<Prompt>, registry: map<string, RegistryEntry>, now: int, midnight: int)
    ensures var row := JoinUser(uid, prompts, registry, now); var ups := PromptsOf(prompts, uid);
      && (uid in registry && registry[uid].registrationDate != 0 ==> row.joinDate == At(registry[uid].registrationDate))
      && ((uid !in registry || registry[uid].registrationDate == 0) && ups != [] ==>
            && row.joinDate.At?
            && (MinTimestamp(ups) != 0 ==>
                  && (forall p :: p in prompts && p.uid == uid ==> row.joinDate.millis <= p.timestamp)
                  && (exists p :: p in prompts && p.uid == uid && p.timestamp == row.joinDate.millis))
            && (MinTimestamp(ups) == 0 ==> row.joinDate == At(now)))
      && ((uid !in registry || registry[uid].registrationDate == 0) && ups == [] ==>
            row.joinDate == InvalidDate && !JoinedSince(row, midnight))
  {
  }

  /** A uid with no registry entry and no prompts (say, a prompt key whose
      value does not parse) is active, with the clock as its lastActive,
      but never new today. */
  lemma OrphanUser(uid: string, prompts: seq<Prompt>, registry: map<string, RegistryEntry>, now: int, midnight: int)
    requires uid !in registry && forall p :: p in prompts ==> p.uid != uid
    ensures var row := JoinUser(uid, prompts, registry, now);
      && row.promptCount == 0 && row.joinDate == InvalidDate && !JoinedSince(row, midnight)
      && row.lastActive == now && IsActive(row, now - DayMillis)
  {
    LastActiveWithoutPrompts(uid, prompts, registry, now);
    JoinDateFacts(uid, prompts, registry, now, midnight);
  }

  /** The badge reads Active exactly for the users activeUsers counts,
      when both use the same clock reading. */
  lemma StatusAgreesWithActiveCount(u: UserRow, now: int)
    ensures StatusLabel(u.lastActive, now) == "Active" <==> IsActive(u, now - DayMillis)
  {
  }

  /** A registered user with two prompts at t1 < t2 has promptCount 2,
      lastActive t2, joinDate t0 and the registry email. */
  lemma TwoPromptExample(p1: Prompt, p2: Prompt, t0: int, lastLogin: int, now: int)
    requires p1.uid == "u1" && p2.uid == "u1" && p1.timestamp < p2.timestamp && t0 != 0
    ensures var row := JoinUser("u1", [p1, p2], map["u1" := RegistryEntry("a@x.com", t0, lastLogin)], now);
      row.promptCount == 2 && row.lastActive == p2.timestamp && row.joinDate == At(t0) && row.email == "a@x.com"
  {
    assert PromptsOf([p1, p2], "u1") == [p1, p2] by {
      assert [p2][1..] == [];
      assert PromptsOf([p2], "u1") == [p2];
      assert [p1, p2][1..] == [p2];
    }
    assert [p1, p2][1..] == [p2];
  }
}
