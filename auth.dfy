/**
 * The mock authentication of src/lib/auth.ts, a state machine over the two
 * browser stores: the signed-in user lives under AUTH_KEY in localStorage,
 * the guest mark under SESSION_KEY in sessionStorage. Values are held as
 * the records their JSON text encodes; text that encodes no record of the
 * expected kind is `Plain`. The 800 ms delays before sign-in and sign-up
 * resolve are left out, and `Date.now()` and the ISO time are parameters.
 */
module Auth {
  import opened Wrappers
  import opened Strings
  import opened Storage
  import opened MockData

  datatype AccountType = Individual | Company

  datatype Plan = Free | Pro | Enterprise

  datatype User = User(
    id: string, email: string, name: string, organization: Option<string>,
    accountType: AccountType, plan: Plan, lastLogin: string)

  /** `Partial<User>`: `Some` for each field the caller supplies. */
  datatype UserUpdate = UserUpdate(
    id: Option<string>, email: Option<string>, name: Option<string>, organization: Option<string>,
    accountType: Option<AccountType>, plan: Option<Plan>, lastLogin: Option<string>)

  /** A value held in localStorage or sessionStorage. */
  datatype Stored =
    | UserJson(user: User)                      // JSON.stringify of a user
    | HistoryJson(items: seq<AnalysisResult>)   // JSON.stringify of an analysis list
    | Plain(raw: string)                        // any other text

  const AUTH_KEY: string := "techniquerag-user"
  const SESSION_KEY: string := "techniquerag-session"
  /** The sessionStorage key under which the pages keep a guest's analyses. */
  const HISTORY_KEY: string := "analysis-history"
  const GUEST_MARK: string := "guest"

  /** `!!getItem(key)`: the key is present and its text is not empty (JSON text never is). */
  predicate Truthy(v: Option<Stored>)
  {
    v.Some? && v.value != Plain("")
  }

  /** `isGuest()`. */
  predicate IsGuest(local: KeyValueStore<Stored>)
    reads local
  {
    !Truthy(local.GetItem(AUTH_KEY))
  }

  /** A session is a guest session exactly when no non-empty value is stored under the auth key. */
  lemma IsGuestIffNoUser(local: KeyValueStore<Stored>)
    ensures IsGuest(local) <==> AUTH_KEY !in local.items || local.items[AUTH_KEY] == Plain("")
    ensures (AUTH_KEY in local.items && local.items[AUTH_KEY].UserJson?) ==> !IsGuest(local)
  {
  }

  /** `getCurrentUser()`: the stored user, or null when nothing usable is stored or the text does not parse. */
  function GetCurrentUser(local: KeyValueStore<Stored>): (u: Option<User>)
    reads local
    ensures u.Some? ==> !IsGuest(local) && local.items[AUTH_KEY] == UserJson(u.value)
    ensures u.None? <==> AUTH_KEY !in local.items || !local.items[AUTH_KEY].UserJson?
  {
    match local.GetItem(AUTH_KEY)
    case Some(UserJson(user)) => Some(user)
    case _ => None
  }

  /** The user object both sign-in and sign-up build. */
  function NewUser(email: string, name: string, now: nat, isoNow: string): User
  {
    User("user-" + NatToString(now), email, name, None, Individual, Free, isoNow)
  }

  /** `email.split('@')[0]`. */
  function NameFromEmail(email: string): (name: string)
    ensures '@' !in name
    ensures |name| <= |email| && email == name + email[|name|..]
    ensures |name| < |email| ==> email[|name|] == '@'
  {
    BeforeFirst(email, '@')
  }

  method SignIn(local: KeyValueStore<Stored>, email: string, password: string, now: nat, isoNow: string)
    returns (user: User)
    modifies local
    ensures user == NewUser(email, NameFromEmail(email), now, isoNow)
    ensures user.accountType == Individual && user.plan == Free
    ensures local.items == old(local.items)[AUTH_KEY := UserJson(user)]
    ensures GetCurrentUser(local) == Some(user) && !IsGuest(local)
  {
    user := NewUser(email, NameFromEmail(email), now, isoNow);
    local.SetItem(AUTH_KEY, UserJson(user));
  }

  method SignUp(local: KeyValueStore<Stored>, email: string, password: string, name: string, now: nat, isoNow: string)
    returns (user: User)
    modifies local
    ensures user == NewUser(email, name, now, isoNow)
    ensures user.accountType == Individual && user.plan == Free
    ensures local.items == old(local.items)[AUTH_KEY := UserJson(user)]
    ensures GetCurrentUser(local) == Some(user) && !IsGuest(local)
  {
    user := NewUser(email, name, now, isoNow);
    local.SetItem(AUTH_KEY, UserJson(user));
  }

  /** Removes the user and everything the session held, guest history included. */
  method SignOut(local: KeyValueStore<Stored>, session: KeyValueStore<Stored>)
    requires local != session
    modifies local, session
    ensures local.items == old(local.items) - {AUTH_KEY}
    ensures session.items == map[]
    ensures IsGuest(local) && GetCurrentUser(local) == None
  {
    local.RemoveItem(AUTH_KEY);
    session.Clear();
  }

  /** Marks the session as a guest session; localStorage, and so the user, is not touched. */
  method ContinueAsGuest(session: KeyValueStore<Stored>)
    modifies session
    ensures session.items == old(session.items)[SESSION_KEY := Plain(GUEST_MARK)]
  {
    session.SetItem(SESSION_KEY, Plain(GUEST_MARK));
  }

  /** `{...user, ...updates}`. */
  function Merge(user: User, updates: UserUpdate): User
  {
    User(
      if updates.id.Some? then updates.id.value else user.id,
      if updates.email.Some? then updates.email.value else user.email,
      if updates.name.Some? then updates.name.value else user.name,
      if updates.organization.Some? then updates.organization else user.organization,
      if updates.accountType.Some? then updates.accountType.value else user.accountType,
      if updates.plan.Some? then updates.plan.value else user.plan,
      if updates.lastLogin.Some? then updates.lastLogin.value else user.lastLogin)
  }

  const NoUpdates: UserUpdate := UserUpdate(None, None, None, None, None, None, None)

  /** `{...p, ...q}` of two partial users. */
  function Combine(p: UserUpdate, q: UserUpdate): UserUpdate
  {
    UserUpdate(
      if q.id.Some? then q.id else p.id,
      if q.email.Some? then q.email else p.email,
      if q.name.Some? then q.name else p.name,
      if q.organization.Some? then q.organization else p.organization,
      if q.accountType.Some? then q.accountType else p.accountType,
      if q.plan.Some? then q.plan else p.plan,
      if q.lastLogin.Some? then q.lastLogin else p.lastLogin)
  }

  /** Supplying nothing keeps the user; supplying the same fields twice is the same as once. */
  lemma MergeNeutralAndIdempotent(user: User, updates: UserUpdate)
    ensures Merge(user, NoUpdates) == user
    ensures Merge(Merge(user, updates), updates) == Merge(user, updates)
  {
  }

  /** Two successive updates act as one update with the later fields winning. */
  lemma MergeSequential(user: User, p: UserUpdate, q: UserUpdate)
    ensures Merge(Merge(user, p), q) == Merge(user, Combine(p, q))
  {
  }

  /** A field the update supplies is replaced; every other field is kept. */
  lemma MergeFields(user: User, updates: UserUpdate)
    ensures var m := Merge(user, updates);
      && (updates.id.Some? ==> m.id == updates.id.value)
      && (updates.id.None? ==> m.id == user.id)
      && (updates.name.Some? ==> m.name == updates.name.value)
      && (updates.name.None? ==> m.name == user.name)
      && (updates.email.Some? ==> m.email == updates.email.value)
      && (updates.email.None? ==> m.email == user.email)
      && (updates.plan.Some? ==> m.plan == updates.plan.value)
      && (updates.plan.None? ==> m.plan == user.plan)
      && (updates.organization.Some? ==> m.organization == updates.organization)
      && (updates.organization.None? ==> m.organization == user.organization)
      && (updates.accountType.Some? ==> m.accountType == updates.accountType.value)
      && (updates.accountType.None? ==> m.accountType == user.accountType)
      && (updates.lastLogin.Some? ==> m.lastLogin == updates.lastLogin.value)
      && (updates.lastLogin.None? ==> m.lastLogin == user.lastLogin)
  {
  }

  /** `updateUser(updates)`. */
  method UpdateUser(local: KeyValueStore<Stored>, updates: UserUpdate) returns (r: Option<User>)
    modifies local
    ensures old(GetCurrentUser(local)).None? ==> r.None? && local.items == old(local.items)
    ensures old(GetCurrentUser(local)).Some? ==>
      && r == Some(Merge(old(GetCurrentUser(local)).value, updates))
      && local.items == old(local.items)[AUTH_KEY := UserJson(r.value)]
      && GetCurrentUser(local) == r
  {
    var user := GetCurrentUser(local);
    if user.None? {
      return None;
    }
    var updated := Merge(user.value, updates);
    local.SetItem(AUTH_KEY, UserJson(updated));
    return Some(updated);
  }
}
