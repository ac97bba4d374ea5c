/** The user registry: one shared uid -> { email, registrationDate,
    lastLogin } object under ai_dashboard_user_registry. */
module UserTrackingService {
  import opened Records
  import opened Browser

  const RegistryKey := "ai_dashboard_user_registry"

  /** getUserRegistry(): the stored object, or {} when the key is absent,
      empty or malformed (the parse error is caught). */
  function GetUserRegistry(items: map<string, Stored>): (r: map<string, RegistryEntry>)
    ensures Lookup(items, RegistryKey).RegistryObject? ==> r == Lookup(items, RegistryKey).entries
    ensures !Lookup(items, RegistryKey).RegistryObject? ==> r == map[]
  {
    match Lookup(items, RegistryKey)
    case RegistryObject(m) => m
    case _ => map[]
  }

  /** The storage registerUser(uid, email) leaves, with the two clock
      readings it takes for registrationDate and lastLogin. */
  function Registered(items: map<string, Stored>, uid: string, email: string, regTime: nat, loginTime: nat)
    : map<string, Stored>
  {
    items[RegistryKey := RegistryObject(GetUserRegistry(items)[uid := RegistryEntry(email, regTime, loginTime)])]
  }

  method RegisterUser(st: LocalStorage, uid: string, email: string, regTime: nat, loginTime: nat)
    requires regTime <= loginTime
    modifies st
    ensures old(st.Valid()) ==> st.Valid()
    ensures st.items == Registered(old(st.items), uid, email, regTime, loginTime)
  {
    var registry := GetUserRegistry(st.items);
    registry := registry[uid := RegistryEntry(email, regTime, loginTime)];
    st.SetItem(RegistryKey, RegistryObject(registry));
  }

  /** The storage updateUserLogin(uid) leaves: only a registered uid's
      lastLogin moves; for an unknown uid nothing is written. */
  function LoginUpdated(items: map<string, Stored>, uid: string, time: nat): map<string, Stored> {
    var registry := GetUserRegistry(items);
    if uid in registry then
      items[RegistryKey := RegistryObject(registry[uid := registry[uid].(lastLogin := time)])]
    else
      items
  }

  method UpdateUserLogin(st: LocalStorage, uid: string, time: nat)
    modifies st
    ensures old(st.Valid()) ==> st.Valid()
    ensures st.items == LoginUpdated(old(st.items), uid, time)
  {
    var registry := GetUserRegistry(st.items);
    if uid in registry {
      registry := registry[uid := registry[uid].(lastLogin := time)];
      st.SetItem(RegistryKey, RegistryObject(registry));
    }
  }

  /** Registration sets registry[uid] to a fresh record with that email,
      replacing any earlier registrationDate, keeps every other uid's entry,
      and writes no other key. */
  lemma RegisterSetsEntry(items: map<string, Stored>, uid: string, email: string, regTime: nat, loginTime: nat)
    ensures var after := Registered(items, uid, email, regTime, loginTime);
      && GetUserRegistry(after).Keys == GetUserRegistry(items).Keys + {uid}
      && GetUserRegistry(after)[uid] == RegistryEntry(email, regTime, loginTime)
      && (forall u :: u in GetUserRegistry(items) && u != uid ==> GetUserRegistry(after)[u] == GetUserRegistry(items)[u])
      && (forall k :: k != RegistryKey ==> Lookup(after, k) == Lookup(items, k))
  {
  }

  /** Registering over a malformed registry keeps only the new user: the
      earlier entries are lost. */
  lemma RegisterOverMalformedRegistry(items: map<string, Stored>, uid: string, email: string, regTime: nat, loginTime: nat)
    requires Lookup(items, RegistryKey).Raw?
    ensures GetUserRegistry(Registered(items, uid, email, regTime, loginTime)) == map[uid := RegistryEntry(email, regTime, loginTime)]
  {
  }

  /** updateUserLogin on an unregistered uid leaves all of storage as it was;
      on a registered one it changes that entry's lastLogin and nothing else. */
  lemma UpdateLoginEffect(items: map<string, Stored>, uid: string, time: nat)
    ensures var before := GetUserRegistry(items); var after := LoginUpdated(items, uid, time);
      && (uid !in before ==> after == items)
      && (uid in before ==>
            && GetUserRegistry(after).Keys == before.Keys
            && GetUserRegistry(after)[uid] == RegistryEntry(before[uid].email, before[uid].registrationDate, time)
            && (forall u :: u in before && u != uid ==> GetUserRegistry(after)[u] == before[u])
            && (forall k :: k != RegistryKey ==> Lookup(after, k) == Lookup(items, k)))
  {
  }

  /** No registered user's last login precedes their registration. */
  ghost predicate LoginsFollowRegistration(registry: map<string, RegistryEntry>) {
    forall u :: u in registry ==> registry[u].registrationDate <= registry[u].lastLogin
  }

  /** Under a monotonic clock, registration and login updates keep every
      lastLogin at or after its registrationDate; the first registration
      starts it (two readings, the second no earlier than the first). */
  lemma RegistryOrderPreserved(items: map<string, Stored>, uid: string, email: string, regTime: nat, loginTime: nat, time: nat)
    requires LoginsFollowRegistration(GetUserRegistry(items))
    requires regTime <= loginTime
    requires forall u :: u in GetUserRegistry(items) ==> GetUserRegistry(items)[u].registrationDate <= time
    ensures LoginsFollowRegistration(GetUserRegistry(Registered(items, uid, email, regTime, loginTime)))
    ensures LoginsFollowRegistration(GetUserRegistry(LoginUpdated(items, uid, time)))
  {
  }
}
