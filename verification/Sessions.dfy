/** Refresh tokens. Nothing stores them: the newest audit row about a token says
    whether it is live. */
module Sessions {
  import opened Text
  import opened Ledger

  /** The claims of a refresh token that was signed here and has not expired. */
  datatype Token = Token(tenant: Id, user: Id, id: Id)

  /** The SHA-256 digest of the signed token, taken to be injective. */
  datatype Digest = Digest(of: Token)

  datatype Facts = Issued(digest: Digest) | Revoked(reason: string) | Unrelated

  type AuditRow = Row<Id, Facts>
  type Rows = seq<Stamped<AuditRow>>

  function IssueRow(t: Token): AuditRow {
    Row(t.tenant, Some(t.user), RefreshIssue, AuthSession, Some(t.id), None, Some(Issued(Digest(t))))
  }

  function RevokeRow(t: Token, reason: string): AuditRow {
    Row(t.tenant, Some(t.user), RefreshRevoke, AuthSession, Some(t.id), None, Some(Revoked(reason)))
  }

  /** What the lookups of the ledger go by. */
  datatype Key = Key(tenant: Id, id: Id)

  function KeyOf(t: Token): Key { Key(t.tenant, t.id) }

  function About(k: Key): AuditRow -> bool {
    (r: AuditRow) => r.tenant == k.tenant && r.objectId == Some(k.id) && r.objectType == AuthSession
  }

  /** The check of the rotation: newest row, its action, its digest. */
  predicate Accepts(rows: Rows, t: Token) {
    match Newest(rows, About(KeyOf(t)))
    case None => false
    case Some(r) => r.row.action == RefreshIssue && r.row.after == Some(Issued(Digest(t)))
  }

  /** What the application does to the ledger. `token` is None when it is missing or
      does not decode; `available` is whether the account loads; other rows come
      from every other part of the system. */
  datatype Step =
    | Login(now: int, minted: Token)
    | Rotate(now: int, token: Option<Token>, available: bool, newId: Id)
    | Logout(now: int, token: Option<Token>)
    | Elsewhere(now: int, row: AuditRow)

  function Successor(t: Token, newId: Id): Token { Token(t.tenant, t.user, newId) }

  predicate Exchanges(rows: Rows, s: Step) {
    s.Rotate? && s.token.Some? && Accepts(rows, s.token.value) && s.available
  }

  function Next(rows: Rows, s: Step): Rows {
    match s
    case Login(now, minted) => Append(rows, now, IssueRow(minted))
    case Rotate(now, token, available, newId) =>
      if Exchanges(rows, s) then
        Append(Append(rows, now, RevokeRow(token.value, "rotated")), now, IssueRow(Successor(token.value, newId)))
      else rows
    case Logout(now, token) => if token.None? then rows else Append(rows, now, RevokeRow(token.value, "logout"))
    case Elsewhere(now, row) => Append(rows, now, row)
  }

  /** The row's session columns. */
  predicate Says(r: Stamped<AuditRow>, now: int, tenant: Id, user: Id, action: Action, id: Id, after: Facts) {
    && r.at == now && r.row.tenant == tenant && r.row.actor == Some(user) && r.row.action == action
    && r.row.objectType == AuthSession && r.row.objectId == Some(id)
    && r.row.before.None? && r.row.after == Some(after)
  }

  predicate Used(rows: Rows, id: Id) { exists k | 0 <= k < |rows| :: rows[k].row.objectId == Some(id) }

  /** The clock does not go back, random identifiers are new, and only this
      component writes session rows. */
  predicate Enabled(rows: Rows, s: Step) {
    && NotBefore(s.now, rows)
    && (s.Login? ==> !Used(rows, s.minted.id))
    && (s.Rotate? ==> !Used(rows, s.newId) && (s.token.Some? ==> s.newId != s.token.value.id))
    && (s.Elsewhere? ==> s.row.objectType != AuthSession)
  }

  ghost predicate Run(rows: Rows, steps: seq<Step>)
    decreases |steps|
  {
    steps == [] || (Enabled(rows, steps[0]) && Run(Next(rows, steps[0]), steps[1..]))
  }

  function After(rows: Rows, steps: seq<Step>): Rows
    decreases |steps|
  {
    if steps == [] then rows else After(Next(rows, steps[0]), steps[1..])
  }

  // ---------- the methods ----------

  class SessionStore {
    var rows: Rows

    constructor ()
      ensures rows == []
    {
      rows := [];
    }

    method WriteAudit(now: int, row: AuditRow)
      modifies this
      ensures rows == Append(old(rows), now, row)
    {
      rows := rows + [Stamped(NextId(rows), now, row)];
    }

    method IssueTokenPair(now: int, user: Id, tenant: Id, newId: Id) returns (refresh: Token)
      modifies this
      ensures refresh.tenant == tenant && refresh.user == user && refresh.id == newId
      ensures rows == Next(old(rows), Login(now, refresh))
      ensures |rows| == |old(rows)| + 1 && rows[..|old(rows)|] == old(rows)
      ensures Says(rows[|old(rows)|], now, tenant, user, RefreshIssue, newId, Issued(Digest(refresh)))
    {
      refresh := Token(tenant, user, newId);
      WriteAudit(now, IssueRow(refresh));
    }

    method RotateRefreshToken(now: int, token: Option<Token>, available: bool, newId: Id)
      returns (refresh: Option<Token>)
      modifies this
      ensures rows == Next(old(rows), Rotate(now, token, available, newId))
      ensures refresh.Some? <==> Exchanges(old(rows), Rotate(now, token, available, newId))
      ensures refresh.Some? ==>
        && refresh.value.tenant == token.value.tenant && refresh.value.user == token.value.user
        && refresh.value.id == newId
      ensures refresh.None? ==> rows == old(rows)
      ensures refresh.Some? ==>
        && |rows| == |old(rows)| + 2 && rows[..|old(rows)|] == old(rows)
        && var t, n := token.value, |old(rows)|;
        && Says(rows[n], now, t.tenant, t.user, RefreshRevoke, t.id, Revoked("rotated"))
        && Says(rows[n + 1], now, t.tenant, t.user, RefreshIssue, newId, Issued(Digest(refresh.value)))
    {
      if token.None? { return None; }
      var ledger := Newest(rows, About(KeyOf(token.value)));
      if ledger.None? || ledger.value.row.action != RefreshIssue
          || ledger.value.row.after != Some(Issued(Digest(token.value))) {
        return None;
      }
      if !available { return None; }
      WriteAudit(now, RevokeRow(token.value, "rotated"));
      var issued := IssueTokenPair(now, token.value.user, token.value.tenant, newId);
      refresh := Some(issued);
    }

    method RevokeRefreshToken(now: int, token: Option<Token>)
      modifies this
      ensures rows == Next(old(rows), Logout(now, token))
      ensures token.None? ==> rows == old(rows)
      ensures token.Some? ==>
        && |rows| == |old(rows)| + 1 && rows[..|old(rows)|] == old(rows)
        && var t := token.value;
        Says(rows[|old(rows)|], now, t.tenant, t.user, RefreshRevoke, t.id, Revoked("logout"))
    {
      if token.None? { return; }
      WriteAudit(now, RevokeRow(token.value, "logout"));
    }
  }

  // ---------- the simple store it refines ----------

  /** Live tokens with the login each descends from, and tokens that had their turn. */
  datatype Store = Store(live: map<Token, Token>, spent: set<Key>)

  const EMPTY_STORE := Store(map[], {})

  ghost function Without(live: map<Token, Token>, k: Key): map<Token, Token> {
    map t | t in live && KeyOf(t) != k :: live[t]
  }

  ghost function NextStore(s: Store, step: Step): Store {
    match step
    case Login(_, minted) => s.(live := s.live[minted := minted])
    case Rotate(_, token, available, newId) =>
      if token.Some? && token.value in s.live && available then
        var t := token.value;
        Store(Without(s.live, KeyOf(t))[Successor(t, newId) := s.live[t]], s.spent + {KeyOf(t)})
      else s
    case Logout(_, token) =>
      if token.None? then s else Store(Without(s.live, KeyOf(token.value)), s.spent + {KeyOf(token.value)})
    case Elsewhere(_, _) => s
  }

  ghost function StoreAfter(s: Store, steps: seq<Step>): Store
    decreases |steps|
  {
    if steps == [] then s else StoreAfter(NextStore(s, steps[0]), steps[1..])
  }

  ghost predicate WellIssued(rows: Rows) {
    forall k | 0 <= k < |rows| :: rows[k].row.objectType == AuthSession && rows[k].row.action == RefreshIssue ==>
      rows[k].row.after.Some? && rows[k].row.after.value.Issued?
          && rows[k].row == IssueRow(rows[k].row.after.value.digest.of)
  }

  /** The ledger accepts exactly the live tokens, and has a row for all the store knows. */
  ghost predicate Refines(rows: Rows, s: Store) {
    && Ordered(rows) && WellIssued(rows)
    && (forall t: Token :: Accepts(rows, t) <==> t in s.live)
    && (forall t | t in s.live :: Used(rows, t.id) && Used(rows, s.live[t].id) && KeyOf(t) !in s.spent)
    && (forall k | k in s.spent :: Used(rows, k.id))
  }

  /** Each login has at most one live descendant. */
  ghost predicate OnePerLogin(s: Store) {
    forall t, u | t in s.live && u in s.live :: s.live[t] == s.live[u] ==> t == u
  }

  lemma AppendUsed(rows: Rows, now: int, row: AuditRow, id: Id)
    ensures Used(Append(rows, now, row), id) <==> Used(rows, id) || row.objectId == Some(id)
  {
    var all := Append(rows, now, row);
    if row.objectId == Some(id) { assert all[|rows|].row.objectId == Some(id); }
    if Used(rows, id) {
      var k :| 0 <= k < |rows| && rows[k].row.objectId == Some(id);
      assert all[k].row.objectId == Some(id);
    }
  }

  lemma AppendAccepts(rows: Rows, now: int, row: AuditRow, t: Token)
    requires Ordered(rows) && NotBefore(now, rows)
    ensures Accepts(Append(rows, now, row), t) <==>
      if About(KeyOf(t))(row) then row.action == RefreshIssue && row.after == Some(Issued(Digest(t)))
      else Accepts(rows, t)
  {
    NewestAppend(rows, now, row, About(KeyOf(t)));
  }

  /** Issuing a token nobody has seen makes it, and only it, live. */
  lemma IssueRefines(rows: Rows, s: Store, now: int, t: Token, login: Token)
    requires Refines(rows, s) && NotBefore(now, rows) && !Used(rows, t.id)
    requires login == t || Used(rows, login.id)
    ensures Refines(Append(rows, now, IssueRow(t)), s.(live := s.live[t := login]))
  {
    hide Accepts, About, Used, Ordered, Newest;
    var all := Append(rows, now, IssueRow(t));
    AppendOrdered(rows, now, IssueRow(t));
    forall u: Token ensures Accepts(all, u) <==> (u in s.live || u == t) {
      AppendAccepts(rows, now, IssueRow(t), u);
      AboutIssue(t, u);
    }
    forall id ensures Used(all, id) <==> Used(rows, id) || id == t.id { AppendUsed(rows, now, IssueRow(t), id); }
  }

  lemma AboutIssue(t: Token, u: Token)
    ensures About(KeyOf(u))(IssueRow(t)) <==> KeyOf(u) == KeyOf(t)
    ensures About(KeyOf(u))(RevokeRow(t, "rotated")) <==> KeyOf(u) == KeyOf(t)
    ensures About(KeyOf(u))(RevokeRow(t, "logout")) <==> KeyOf(u) == KeyOf(t)
  {
  }

  /** Revoking spends the token's key, live or not. */
  lemma RevokeRefines(rows: Rows, s: Store, now: int, t: Token, row: AuditRow)
    requires Refines(rows, s) && NotBefore(now, rows)
    requires row == RevokeRow(t, "rotated") || row == RevokeRow(t, "logout")
    ensures Refines(Append(rows, now, row), Store(Without(s.live, KeyOf(t)), s.spent + {KeyOf(t)}))
  {
    hide Accepts, About, Used, Ordered, Newest;
    var all := Append(rows, now, row);
    AppendOrdered(rows, now, row);
    forall u: Token ensures Accepts(all, u) <==> u in Without(s.live, KeyOf(t)) {
      AppendAccepts(rows, now, row, u);
      AboutIssue(t, u);
    }
    forall id ensures Used(all, id) <==> Used(rows, id) || id == t.id { AppendUsed(rows, now, row, id); }
  }

  lemma ElsewhereRefines(rows: Rows, s: Store, now: int, row: AuditRow)
    requires Refines(rows, s) && NotBefore(now, rows) && row.objectType != AuthSession
    ensures Refines(Append(rows, now, row), s)
  {
    hide Accepts, Used, Ordered, Newest;
    var all := Append(rows, now, row);
    AppendOrdered(rows, now, row);
    forall u: Token ensures Accepts(all, u) <==> u in s.live { AppendAccepts(rows, now, row, u); }
    forall id ensures Used(rows, id) ==> Used(all, id) { AppendUsed(rows, now, row, id); }
  }

  /** One step of the ledger is one step of the store, with the same answer. */
  lemma StepRefines(rows: Rows, s: Store, step: Step)
    requires Refines(rows, s) && Enabled(rows, step)
    ensures Refines(Next(rows, step), NextStore(s, step))
    ensures step.Rotate? && step.token.Some? ==>
        (Exchanges(rows, step) <==> step.token.value in s.live && step.available)
  {
    hide Accepts, Used, Ordered, Newest, WellIssued;
    match step
    case Login(now, minted) => IssueRefines(rows, s, now, minted, minted);
    case Elsewhere(now, row) => ElsewhereRefines(rows, s, now, row);
    case Logout(now, token) =>
      if token.Some? { RevokeRefines(rows, s, now, token.value, RevokeRow(token.value, "logout")); }
    case Rotate(now, token, available, newId) =>
      if Exchanges(rows, step) {
        var t, u := token.value, Successor(token.value, newId);
        var row := RevokeRow(t, "rotated");
        RevokeRefines(rows, s, now, t, row);
        AppendOrdered(rows, now, row);
        AppendUsed(rows, now, row, newId);
        AppendUsed(rows, now, row, s.live[t].id);
        IssueRefines(Append(rows, now, row), Store(Without(s.live, KeyOf(t)), s.spent + {KeyOf(t)}), now, u, s.live[t]);
      }
  }

  // ---------- all runs ----------

  lemma {:induction false} RunRefines(rows: Rows, s: Store, steps: seq<Step>)
    requires Refines(rows, s) && Run(rows, steps)
    ensures Refines(After(rows, steps), StoreAfter(s, steps))
    ensures s.spent <= StoreAfter(s, steps).spent
    decreases |steps|
  {
    hide Refines, Enabled, Next;
    if steps == [] {
    } else {
      StepRefines(rows, s, steps[0]);
      RunRefines(Next(rows, steps[0]), NextStore(s, steps[0]), steps[1..]);
    }
  }

  /** The lookup in the ledger is membership in the set of live tokens. */
  lemma LookupIsMembership(steps: seq<Step>, t: Token)
    requires Run([], steps)
    ensures Accepts(After([], steps), t) <==> t in StoreAfter(EMPTY_STORE, steps).live
  {
    RunRefines([], EMPTY_STORE, steps);
  }

  /** The step uses the token up: it is exchanged, or its owner logs out with it. */
  predicate Retires(rows: Rows, s: Step, t: Token) {
    (s.Rotate? || s.Logout?) && s.token == Some(t) && (s.Rotate? ==> Exchanges(rows, s))
  }

  /** A token is exchanged at most once, and never after a logout. */
  lemma NeverAgain(history: seq<Step>, use: Step, later: seq<Step>, t: Token)
    requires Run([], history) && Enabled(After([], history), use) && Retires(After([], history), use, t)
    requires Run(Next(After([], history), use), later)
    ensures !Accepts(After(Next(After([], history), use), later), t)
  {
    hide Accepts, Next, Run, After, StoreAfter, Enabled;
    var rows, s := After([], history), StoreAfter(EMPTY_STORE, history);
    EmptyRefines();
    RunRefines([], EMPTY_STORE, history);
    StepRefines(rows, s, use);
    assert KeyOf(t) in NextStore(s, use).spent;
    RunRefines(Next(rows, use), NextStore(s, use), later);
  }

  lemma EmptyRefines()
    ensures Refines([], EMPTY_STORE) && OnePerLogin(EMPTY_STORE)
  {
  }

  lemma OnePerLoginStep(rows: Rows, s: Store, step: Step)
    requires Refines(rows, s) && OnePerLogin(s) && Enabled(rows, step)
    ensures OnePerLogin(NextStore(s, step))
  {
    hide Accepts, Used, Ordered, WellIssued;
  }

  lemma {:induction false} OneDescendantFrom(rows: Rows, s: Store, steps: seq<Step>)
    requires Refines(rows, s) && OnePerLogin(s) && Run(rows, steps)
    ensures OnePerLogin(StoreAfter(s, steps))
    decreases |steps|
  {
    hide Refines, Enabled, Next, OnePerLogin;
    if steps == [] {
    } else {
      StepRefines(rows, s, steps[0]);
      OnePerLoginStep(rows, s, steps[0]);
      OneDescendantFrom(Next(rows, steps[0]), NextStore(s, steps[0]), steps[1..]);
    }
  }

  /** Two accepted tokens never descend from the same login. */
  lemma OneDescendant(steps: seq<Step>, t: Token, u: Token)
    requires Run([], steps)
    requires Accepts(After([], steps), t) && Accepts(After([], steps), u) && t != u
    ensures var live := StoreAfter(EMPTY_STORE, steps).live;
      t in live && u in live && live[t] != live[u]
  {
    EmptyRefines();
    RunRefines([], EMPTY_STORE, steps);
    OneDescendantFrom([], EMPTY_STORE, steps);
  }

  // ---------- whose tokens they are ----------

  /** The login step that minted the token. */
  predicate MintedIn(steps: seq<Step>, t: Token) {
    exists k | 0 <= k < |steps| :: steps[k].Login? && steps[k].minted == t
  }

  /** Every live token has the tenant and the user of the login it descends from, and
      that login is one of `history`. */
  ghost predicate Inherited(s: Store, history: seq<Step>) {
    forall t | t in s.live ::
      s.live[t].tenant == t.tenant && s.live[t].user == t.user && MintedIn(history, s.live[t])
  }

  lemma InheritedStep(s: Store, history: seq<Step>, step: Step)
    requires Inherited(s, history)
    ensures Inherited(NextStore(s, step), history + [step])
  {
    hide MintedIn;
    forall t | MintedIn(history, t) ensures MintedIn(history + [step], t) { MintedBefore(history, step, t); }
    if step.Login? { MintedNow(history, step); }
  }

  lemma MintedBefore(history: seq<Step>, step: Step, t: Token)
    requires MintedIn(history, t)
    ensures MintedIn(history + [step], t)
  {
    var k :| 0 <= k < |history| && history[k].Login? && history[k].minted == t;
    assert (history + [step])[k] == history[k];
  }

  lemma MintedNow(history: seq<Step>, step: Step)
    requires step.Login?
    ensures MintedIn(history + [step], step.minted)
  {
    assert (history + [step])[|history|] == step;
  }

  lemma {:induction false} InheritedRun(s: Store, history: seq<Step>, steps: seq<Step>)
    requires Inherited(s, history)
    ensures Inherited(StoreAfter(s, steps), history + steps)
    decreases |steps|
  {
    hide Inherited, NextStore;
    if steps == [] {
      assert history + steps == history;
    } else {
      InheritedStep(s, history, steps[0]);
      InheritedRun(NextStore(s, steps[0]), history + [steps[0]], steps[1..]);
      assert history + [steps[0]] + steps[1..] == history + steps;
    }
  }

  /** Rotation never changes hands: an accepted token belongs to the tenant and the user
      of the login it descends from, which is a step of the run. */
  lemma SameOwner(steps: seq<Step>, t: Token)
    requires Run([], steps) && Accepts(After([], steps), t)
    ensures var live := StoreAfter(EMPTY_STORE, steps).live;
      && t in live && live[t].tenant == t.tenant && live[t].user == t.user
      && exists k | 0 <= k < |steps| ::
        steps[k].Login? && steps[k].minted == live[t]
        && steps[k].minted.tenant == t.tenant && steps[k].minted.user == t.user
  {
    hide Run, After, Accepts, StoreAfter;
    EmptyRefines();
    RunRefines([], EMPTY_STORE, steps);
    assert Inherited(EMPTY_STORE, []);
    InheritedRun(EMPTY_STORE, [], steps);
    assert [] + steps == steps;
  }

  // ---------- conservation ----------

  predicate KeyLive(rows: Rows, k: Key) {
    var r := Newest(rows, About(k));
    r.Some? && r.value.row.action == RefreshIssue
  }

  function Logins(steps: seq<Step>): nat {
    if steps == [] then 0 else (if steps[0].Login? then 1 else 0) + Logins(steps[1..])
  }

  function LiveLogouts(rows: Rows, steps: seq<Step>): nat
    decreases |steps|
  {
    if steps == [] then 0
    else (if EndsSession(rows, steps[0]) then 1 else 0) + LiveLogouts(Next(rows, steps[0]), steps[1..])
  }

  predicate EndsSession(rows: Rows, s: Step) { s.Logout? && s.token.Some? && KeyLive(rows, KeyOf(s.token.value)) }

  lemma KeyLiveToken(rows: Rows, s: Store, k: Key)
    requires Refines(rows, s)
    ensures KeyLive(rows, k) <==> exists t :: t in s.live && KeyOf(t) == k
    ensures forall t, u | t in s.live && u in s.live && KeyOf(t) == k && KeyOf(u) == k :: t == u
  {
    hide Ordered, Used;
    var i := NewestFound(rows, About(k));
    if KeyLive(rows, k) {
      var t := rows[i].row.after.value.digest.of;
      assert KeyOf(t) == k && Accepts(rows, t);
    }
  }

  lemma WithoutSize(live: map<Token, Token>, k: Key)
    requires forall t, u | t in live && u in live && KeyOf(t) == k && KeyOf(u) == k :: t == u
    ensures |Without(live, k)| == if exists t :: t in live && KeyOf(t) == k then |live| - 1 else |live|
  {
    if exists t :: t in live && KeyOf(t) == k {
      var t :| t in live && KeyOf(t) == k;
      assert Without(live, k).Keys == live.Keys - {t};
    } else {
      assert Without(live, k) == live;
    }
  }

  lemma SizeStep(rows: Rows, s: Store, step: Step)
    requires Refines(rows, s) && Enabled(rows, step)
    ensures |NextStore(s, step).live| ==
      |s.live| + (if step.Login? then 1 else 0) - (if EndsSession(rows, step) then 1 else 0)
  {
    hide Accepts, KeyLive, Ordered, WellIssued, Used;
    match step
    case Login(_, minted) =>
    case Elsewhere(_, _) =>
    case Logout(_, token) =>
      if token.Some? {
        KeyLiveToken(rows, s, KeyOf(token.value));
        WithoutSize(s.live, KeyOf(token.value));
      }
    case Rotate(_, token, available, newId) =>
      if token.Some? && token.value in s.live && available {
        KeyLiveToken(rows, s, KeyOf(token.value));
        WithoutSize(s.live, KeyOf(token.value));
      }
  }

  /** Rotation conserves sessions: the live ones are the logins less the logouts that ended one. */
  lemma {:induction false} Conservation(rows: Rows, s: Store, steps: seq<Step>)
    requires Refines(rows, s) && Run(rows, steps)
    ensures |StoreAfter(s, steps).live| == |s.live| + Logins(steps) - LiveLogouts(rows, steps)
    decreases |steps|
  {
    hide Refines, Enabled, Next, EndsSession;
    if steps == [] {
    } else {
      StepRefines(rows, s, steps[0]);
      SizeStep(rows, s, steps[0]);
      Conservation(Next(rows, steps[0]), NextStore(s, steps[0]), steps[1..]);
    }
  }
}
