// Refresh-token sessions as a concurrent protocol: requests interleave at the
// granularity of single SQL statements.
module Sessions {
  import opened Collections

  type Hash = int
  type User = int
  type RequestId = int

  const DAY := 86400

  datatype Row = Row(user: User, expires: int, revokedAt: Option<int>)

  type Rows = map<Hash, Row>

  // ------------------------------------------------------------------
  // Statements
  // ------------------------------------------------------------------

  predicate Live(rows: Rows, hash: Hash) {
    hash in rows && rows[hash].revokedAt == None
  }

  // Revokes the session, revoked before or not.
  function Mark(rows: Rows, hash: Hash, now: int): Rows {
    if hash in rows then rows[hash := rows[hash].(revokedAt := Some(now))] else rows
  }

  // Revokes the session if nobody has.
  function Claim(rows: Rows, hash: Hash, now: int): Rows {
    if Live(rows, hash) then Mark(rows, hash, now) else rows
  }

  // Revokes every session of the user that nobody has revoked.
  function RevokeAll(rows: Rows, user: User, now: int): Rows {
    map h | h in rows :: if rows[h].user == user && Live(rows, h) then rows[h].(revokedAt := Some(now)) else rows[h]
  }

  // Deletes the sessions that expired more than a day ago.
  function Purge(rows: Rows, now: int): Rows {
    map h | h in rows && !(rows[h].expires < now - DAY) :: rows[h]
  }

  // ------------------------------------------------------------------
  // Requests, one statement at a time
  // ------------------------------------------------------------------

  datatype Outcome = Invalid | Unrecognised | Expired | AlreadyUsed | Inactive | Issued(hash: Hash)
                   | LoggedOut | NothingToRevoke

  datatype Task =
    | Selecting(hash: Hash)               // a rotation about to read its session
    | Claiming(hash: Hash, user: User)    // read and found unexpired
    | Replayed(user: User)                // somebody else had claimed it
    | Winning(hash: Hash, user: User)     // claimed, its successor not yet issued
    | LogoutSelecting(hash: Hash)
    | LogoutMarking(hash: Hash)           // read and found live
    | Finished(outcome: Outcome)

  // The table and the requests under way; beside them, for every hash ever
  // issued, the login it descends from, and the claims that succeeded.
  datatype World = World(rows: Rows, lineage: map<Hash, Hash>, tasks: map<RequestId, Task>, claims: seq<Hash>)

  datatype Action =
    | Login(user: User, new_: Hash, expires: int)
    | StartRotation(id: RequestId, hash: Hash)
    | StartLogout(id: RequestId, hash: Hash)
    | Proceed(id: RequestId, now: int, active: bool, new_: Hash, expires: int)
    | RevokeEverything(user: User, now: int)
    | PurgeExpired(now: int)

  const EMPTY := World(map[], map[], map[], [])

  // Token ids are never drawn twice.
  predicate Enabled(w: World, a: Action) {
    match a
    case Login(_, new_, _) => new_ !in w.lineage
    case StartRotation(id, _) => id !in w.tasks
    case StartLogout(id, _) => id !in w.tasks
    case Proceed(id, _, _, new_, _) =>
      id in w.tasks && !w.tasks[id].Finished? && new_ !in w.lineage
    case RevokeEverything(_, _) => true
    case PurgeExpired(_) => true
  }

  function LoginOf(w: World, hash: Hash): Hash {
    if hash in w.lineage then w.lineage[hash] else hash
  }

  function Insert(w: World, user: User, new_: Hash, expires: int, from: Hash): World {
    w.(rows := w.rows[new_ := Row(user, expires, None)], lineage := w.lineage[new_ := from])
  }

  function Become(w: World, id: RequestId, task: Task): World {
    w.(tasks := w.tasks[id := task])
  }

  // The next statement of a request.
  function Advance(w: World, id: RequestId, now: int, active: bool, new_: Hash, expires: int): World
    requires id in w.tasks
  {
    match w.tasks[id]
    case Selecting(h) =>
      Become(w, id,
        if h !in w.rows then Finished(Unrecognised)
        else if w.rows[h].expires <= now then Finished(Expired)
        else Claiming(h, w.rows[h].user))
    case Claiming(h, user) =>
      if Live(w.rows, h) then
        Become(w.(rows := Claim(w.rows, h, now), claims := w.claims + [h]), id, Winning(h, user))
      else Become(w, id, Replayed(user))
    case Replayed(user) =>
      Become(w.(rows := RevokeAll(w.rows, user, now)), id, Finished(AlreadyUsed))
    case Winning(h, user) =>
      if active then Become(Insert(w, user, new_, expires, LoginOf(w, h)), id, Finished(Issued(new_)))
      else Become(w, id, Finished(Inactive))
    case LogoutSelecting(h) =>
      Become(w, id, if Live(w.rows, h) then LogoutMarking(h) else Finished(NothingToRevoke))
    case LogoutMarking(h) =>
      Become(w.(rows := Mark(w.rows, h, now)), id, Finished(LoggedOut))
    case Finished(_) => w
  }

  function Perform(w: World, a: Action): World
    requires Enabled(w, a)
  {
    match a
    case Login(user, new_, expires) => Insert(w, user, new_, expires, new_)
    case StartRotation(id, hash) => Become(w, id, Selecting(hash))
    case StartLogout(id, hash) => Become(w, id, LogoutSelecting(hash))
    case Proceed(id, now, active, new_, expires) => Advance(w, id, now, active, new_, expires)
    case RevokeEverything(user, now) => w.(rows := RevokeAll(w.rows, user, now))
    case PurgeExpired(now) => w.(rows := Purge(w.rows, now))
  }

  datatype History = History(worlds: seq<World>, actions: seq<Action>)

  ghost predicate Linked(h: History, i: nat)
    requires |h.worlds| == |h.actions| + 1 && i < |h.actions|
  {
    Enabled(h.worlds[i], h.actions[i]) && h.worlds[i + 1] == Perform(h.worlds[i], h.actions[i])
  }

  // Any interleaving of logins, rotations, logouts, revocations and purges.
  ghost predicate IsHistory(h: History) {
    && |h.worlds| == |h.actions| + 1 && h.worlds[0] == EMPTY
    && forall i :: 0 <= i < |h.actions| ==> Linked(h, i)
  }

  // ------------------------------------------------------------------
  // What every interleaving keeps
  // ------------------------------------------------------------------

  // Who may come to hold the one live session of a login.
  predicate LiveOf(w: World, login: Hash, hash: Hash) {
    Live(w.rows, hash) && LoginOf(w, hash) == login
  }

  predicate WinnerOf(w: World, login: Hash, id: RequestId) {
    id in w.tasks && w.tasks[id].Winning? && LoginOf(w, w.tasks[id].hash) == login
  }

  ghost predicate OneHolder(w: World, login: Hash) {
    && (forall h, k :: LiveOf(w, login, h) && LiveOf(w, login, k) ==> h == k)
    && (forall i, j :: WinnerOf(w, login, i) && WinnerOf(w, login, j) ==> i == j)
    && (forall h, i :: LiveOf(w, login, h) ==> !WinnerOf(w, login, i))
  }

  predicate TaskRecorded(w: World, task: Task) {
    && (task.Winning? || task.Claiming? ==> task.hash in w.lineage)
    && (task.Claiming? && task.hash in w.rows ==> w.rows[task.hash].user == task.user)
  }

  ghost predicate Recorded(w: World) {
    && (forall h :: h in w.rows ==> h in w.lineage)
    && (forall h :: h in w.lineage ==> w.lineage[h] in w.lineage)
    && (forall i :: i in w.tasks ==> TaskRecorded(w, w.tasks[i]))
  }

  // A claimed session is spent for good.
  ghost predicate ClaimedOnce(w: World) {
    && (forall i :: 0 <= i < |w.claims| ==> w.claims[i] in w.lineage && !Live(w.rows, w.claims[i]))
    && (forall i, j :: 0 <= i < j < |w.claims| ==> w.claims[i] != w.claims[j])
  }

  ghost predicate Safe(w: World) {
    Recorded(w) && ClaimedOnce(w) && forall login :: OneHolder(w, login)
  }

  // No row appears, changes hands or comes back to life.
  ghost predicate OnlyRevokes(rows: Rows, after: Rows) {
    forall h :: h in after ==>
      h in rows && after[h].user == rows[h].user && (Live(after, h) ==> Live(rows, h))
  }

  // Taking rows away or revoking them.
  lemma RevokingKeepsSafe(w: World, after: Rows, id: RequestId, task: Task)
    requires Safe(w) && OnlyRevokes(w.rows, after) && !task.Winning?
    requires task.Claiming? ==> task.hash in w.rows && w.rows[task.hash].user == task.user
    ensures Safe(w.(rows := after)) && Safe(Become(w.(rows := after), id, task))
  {
    RevokingKeepsRecorded(w, after, id, task);
    forall login ensures OneHolder(w.(rows := after), login) && OneHolder(Become(w.(rows := after), id, task), login) {
      FewerHolders(w, w.(rows := after), login);
      FewerHolders(w, Become(w.(rows := after), id, task), login);
    }
  }

  lemma FewerHolders(w: World, v: World, login: Hash)
    requires OneHolder(w, login) && OnlyRevokes(w.rows, v.rows) && v.lineage == w.lineage
    requires forall i :: i in v.tasks && v.tasks[i].Winning? ==> i in w.tasks && w.tasks[i] == v.tasks[i]
    ensures OneHolder(v, login)
  {
    forall h | LiveOf(v, login, h) ensures LiveOf(w, login, h) {}
    forall i | WinnerOf(v, login, i) ensures WinnerOf(w, login, i) {}
  }

  lemma RevokingKeepsRecorded(w: World, after: Rows, id: RequestId, task: Task)
    requires Recorded(w) && OnlyRevokes(w.rows, after) && !task.Winning?
    requires task.Claiming? ==> task.hash in w.rows && w.rows[task.hash].user == task.user
    ensures Recorded(w.(rows := after)) && Recorded(Become(w.(rows := after), id, task))
  {
    var v := Become(w.(rows := after), id, task);
    forall i | i in v.tasks ensures TaskRecorded(v, v.tasks[i]) {
      assert i != id ==> TaskRecorded(w, w.tasks[i]);
    }
    forall i | i in w.tasks ensures TaskRecorded(w.(rows := after), w.tasks[i]) {
      assert TaskRecorded(w, w.tasks[i]);
    }
  }

  lemma ClaimingKeepsSafe(w: World, id: RequestId, now: int, active: bool, new_: Hash, expires: int)
    requires Safe(w) && id in w.tasks && w.tasks[id].Claiming? && Live(w.rows, w.tasks[id].hash)
    ensures Safe(Advance(w, id, now, active, new_, expires))
  {
    var h := w.tasks[id].hash;
    var v := Advance(w, id, now, active, new_, expires);
    assert TaskRecorded(w, w.tasks[id]);
    forall i | i in v.tasks ensures TaskRecorded(v, v.tasks[i]) {
      assert TaskRecorded(w, w.tasks[i]);
    }
    forall login ensures OneHolder(v, login) {
      assert OneHolder(w, login);
      assert LoginOf(w, h) == login ==> LiveOf(w, login, h);
      assert forall i :: WinnerOf(v, login, i) ==> i == id || WinnerOf(w, login, i);
      assert forall k :: LiveOf(v, login, k) ==> LiveOf(w, login, k) && k != h;
    }
  }

  lemma InsertKeepsSafe(w: World, user: User, new_: Hash, expires: int)
    requires Safe(w) && new_ !in w.lineage
    ensures Safe(Insert(w, user, new_, expires, new_))
  {
    var v := Insert(w, user, new_, expires, new_);
    forall login ensures OneHolder(v, login) {
      assert OneHolder(w, login);
      forall h ensures LiveOf(v, login, h) <==> if h == new_ then login == new_ else LiveOf(w, login, h) {}
      forall i ensures WinnerOf(v, login, i) <==> WinnerOf(w, login, i) {
        assert i in w.tasks ==> TaskRecorded(w, w.tasks[i]);
      }
    }
  }

  lemma IssuingKeepsSafe(w: World, id: RequestId, now: int, active: bool, new_: Hash, expires: int)
    requires Safe(w) && id in w.tasks && w.tasks[id].Winning? && new_ !in w.lineage
    ensures Safe(Advance(w, id, now, active, new_, expires))
  {
    var h, user := w.tasks[id].hash, w.tasks[id].user;
    var from := LoginOf(w, h);
    assert TaskRecorded(w, w.tasks[id]);
    var v := Advance(w, id, now, active, new_, expires);
    var u := if active then Insert(w, user, new_, expires, from) else w;
    forall i | i in v.tasks ensures TaskRecorded(v, v.tasks[i]) {
      assert i != id ==> TaskRecorded(u, u.tasks[i]);
    }
    forall login ensures OneHolder(v, login) {
      assert OneHolder(w, login);
      assert from == login ==> WinnerOf(w, login, id);
      forall k | LiveOf(v, login, k) ensures (k == new_ && from == login && active) || LiveOf(w, login, k) {}
      forall i | WinnerOf(v, login, i) ensures WinnerOf(w, login, i) && i != id {
        assert TaskRecorded(w, w.tasks[i]);
      }
    }
  }

  lemma PerformKeepsSafe(w: World, a: Action)
    requires Safe(w) && Enabled(w, a)
    ensures Safe(Perform(w, a))
  {
    match a
    case Login(user, new_, expires) => InsertKeepsSafe(w, user, new_, expires);
    case StartRotation(id, hash) => RevokingKeepsSafe(w, w.rows, id, Selecting(hash));
    case StartLogout(id, hash) => RevokingKeepsSafe(w, w.rows, id, LogoutSelecting(hash));
    case RevokeEverything(user, now) =>
      RevokingKeepsSafe(w, RevokeAll(w.rows, user, now), 0, Selecting(0));
    case PurgeExpired(now) =>
      RevokingKeepsSafe(w, Purge(w.rows, now), 0, Selecting(0));
    case Proceed(id, now, active, new_, expires) =>
      if w.tasks[id].Winning? {
        IssuingKeepsSafe(w, id, now, active, new_, expires);
      } else if w.tasks[id].Claiming? && Live(w.rows, w.tasks[id].hash) {
        ClaimingKeepsSafe(w, id, now, active, new_, expires);
      } else {
        AdvancingKeepsSafe(w, id, now, active, new_, expires);
      }
  }

  // The statements that neither claim nor issue.
  lemma AdvancingKeepsSafe(w: World, id: RequestId, now: int, active: bool, new_: Hash, expires: int)
    requires Safe(w) && id in w.tasks && !w.tasks[id].Winning? && !w.tasks[id].Finished?
    requires w.tasks[id].Claiming? ==> !Live(w.rows, w.tasks[id].hash)
    ensures Safe(Advance(w, id, now, active, new_, expires))
  {
    var v := Advance(w, id, now, active, new_, expires);
    RevokingKeepsSafe(w, v.rows, id, v.tasks[id]);
    assert v == Become(w.(rows := v.rows), id, v.tasks[id]);
  }

  lemma {:induction false} EveryHistoryIsSafe(h: History, i: nat)
    requires IsHistory(h) && i < |h.worlds|
    ensures Safe(h.worlds[i])
  {
    if i > 0 {
      EveryHistoryIsSafe(h, i - 1);
      assert Linked(h, i - 1);
      PerformKeepsSafe(h.worlds[i - 1], h.actions[i - 1]);
    }
  }

  // At most one live session or unfinished winner descends from a login.
  lemma LineageHoldsOne(h: History, i: nat, login: Hash)
    requires IsHistory(h) && i < |h.worlds|
    ensures var w := h.worlds[i];
      |set k | k in w.rows && LiveOf(w, login, k)| + |set r | r in w.tasks && WinnerOf(w, login, r)| <= 1
  {
    EveryHistoryIsSafe(h, i);
    var w := h.worlds[i];
    assert OneHolder(w, login);
    var live := set k | k in w.rows && LiveOf(w, login, k);
    var winners := set r | r in w.tasks && WinnerOf(w, login, r);
    AtMostOne(live);
    AtMostOne(winners);
    if live != {} && winners != {} {
      ghost var k := Member(live);
      ghost var r := Member(winners);
      assert false;
    }
  }

  lemma AtMostOne(s: set<int>)
    requires forall x, y :: x in s && y in s ==> x == y
    ensures |s| <= 1 && (s == {} <==> |s| == 0)
  {
    if s != {} {
      ghost var x := Member(s);
      forall y ensures y in s <==> y in {x} {}
      assert s == {x};
    }
  }

  // Step i turns a claimant of the session into its winner.
  ghost predicate Wins(h: History, i: nat, hash: Hash)
    requires |h.worlds| == |h.actions| + 1 && i < |h.actions|
  {
    && h.actions[i].Proceed? && h.actions[i].id in h.worlds[i].tasks && h.actions[i].id in h.worlds[i + 1].tasks
    && !h.worlds[i].tasks[h.actions[i].id].Winning?
    && h.worlds[i + 1].tasks[h.actions[i].id].Winning?
    && h.worlds[i + 1].tasks[h.actions[i].id].hash == hash
  }

  lemma WinningIsClaiming(h: History, i: nat, hash: Hash)
    requires IsHistory(h) && i < |h.actions| && Wins(h, i, hash)
    ensures Live(h.worlds[i].rows, hash) && h.worlds[i + 1].claims == h.worlds[i].claims + [hash]
  {
    assert Linked(h, i);
  }

  lemma {:induction false} ClaimsAreKept(h: History, i: nat, j: nat, hash: Hash)
    requires IsHistory(h) && i <= j < |h.worlds| && hash in h.worlds[i].claims
    ensures hash in h.worlds[j].claims
  {
    if i < j {
      ClaimsAreKept(h, i, j - 1, hash);
      assert Linked(h, j - 1);
    }
  }

  // No interleaving rotates a session twice.
  lemma RotatedAtMostOnce(h: History, i: nat, j: nat, hash: Hash)
    requires IsHistory(h) && i < j < |h.actions| && Wins(h, i, hash)
    ensures !Wins(h, j, hash)
  {
    WinningIsClaiming(h, i, hash);
    ClaimsAreKept(h, i + 1, j, hash);
    EveryHistoryIsSafe(h, j);
    if Wins(h, j, hash) {
      WinningIsClaiming(h, j, hash);
      assert false;
    }
  }

  // Once a session is revoked, or purged, it is never live again.
  lemma {:induction false} RevocationIsFinal(h: History, i: nat, j: nat, hash: Hash)
    requires IsHistory(h) && i <= j < |h.worlds| && hash in h.worlds[i].lineage && !Live(h.worlds[i].rows, hash)
    ensures hash in h.worlds[j].lineage && !Live(h.worlds[j].rows, hash)
  {
    if i < j {
      RevocationIsFinal(h, i, j - 1, hash);
      assert Linked(h, j - 1);
    }
  }

  // ------------------------------------------------------------------
  // Dropping every session of a user
  // ------------------------------------------------------------------

  ghost predicate HasLive(w: World, user: User) {
    exists h :: h in w.rows && w.rows[h].user == user && Live(w.rows, h)
  }

  predicate IsWinner(w: World, user: User, id: RequestId) {
    id in w.tasks && w.tasks[id].Winning? && w.tasks[id].user == user
  }

  ghost predicate HasWinner(w: World, user: User) {
    exists i :: IsWinner(w, user, i)
  }

  lemma DormantStep(w: World, a: Action, user: User)
    requires Safe(w) && Enabled(w, a) && !HasLive(w, user) && !HasWinner(w, user)
    requires a.Login? ==> a.user != user
    ensures !HasLive(Perform(w, a), user) && !HasWinner(Perform(w, a), user)
  {
    var v := Perform(w, a);
    if a.Proceed? {
      assert TaskRecorded(w, w.tasks[a.id]);
      assert w.tasks[a.id].Winning? ==> !IsWinner(w, user, a.id);
    }
    forall h | h in v.rows && v.rows[h].user == user ensures !Live(v.rows, h) {
      assert h in w.rows ==> !(w.rows[h].user == user && Live(w.rows, h));
    }
    forall i ensures !IsWinner(v, user, i) {
      assert !IsWinner(w, user, i);
    }
  }

  // With no winner under way, only a new login brings a user a live session.
  lemma {:induction false} DormantUntilLogin(h: History, i: nat, j: nat, user: User)
    requires IsHistory(h) && i <= j < |h.worlds|
    requires !HasLive(h.worlds[i], user) && !HasWinner(h.worlds[i], user)
    requires forall k :: i <= k < j && h.actions[k].Login? ==> h.actions[k].user != user
    ensures !HasLive(h.worlds[j], user) && !HasWinner(h.worlds[j], user)
  {
    if i < j {
      DormantUntilLogin(h, i, j - 1, user);
      EveryHistoryIsSafe(h, j - 1);
      assert Linked(h, j - 1);
      DormantStep(h.worlds[j - 1], h.actions[j - 1], user);
    }
  }

  // Right after all sessions of a user were revoked, the next statement can
  // bring one to life without a login exactly when a winner is under way.
  lemma RevokeAllMissesOnlyWinners(w: World, user: User, now: int, new_: Hash)
    requires Safe(w) && new_ !in w.lineage
    ensures var after := w.(rows := RevokeAll(w.rows, user, now));
      HasWinner(w, user) <==>
        exists a :: Enabled(after, a) && !a.Login? && HasLive(Perform(after, a), user)
  {
    var after := w.(rows := RevokeAll(w.rows, user, now));
    RevokingKeepsSafe(w, after.rows, 0, Selecting(0));
    if HasWinner(w, user) {
      var i :| IsWinner(w, user, i);
      var a := Proceed(i, now, true, new_, now);
      assert Enabled(after, a);
      assert Perform(after, a).rows[new_] == Row(user, now, None);
      assert Live(Perform(after, a).rows, new_);
    } else {
      forall i ensures !IsWinner(after, user, i) {
        assert !IsWinner(w, user, i);
      }
      forall a | Enabled(after, a) && !a.Login? ensures !HasLive(Perform(after, a), user) {
        DormantStep(after, a, user);
      }
    }
  }

  function Last(h: History): World
    requires h.worlds != []
  {
    h.worlds[|h.worlds| - 1]
  }

  lemma Extend(h: History, a: Action) returns (longer: History)
    requires IsHistory(h) && Enabled(Last(h), a)
    ensures IsHistory(longer) && Last(longer) == Perform(Last(h), a)
    ensures longer.actions == h.actions + [a]
  {
    longer := History(h.worlds + [Perform(Last(h), a)], h.actions + [a]);
    forall i | 0 <= i < |longer.actions| ensures Linked(longer, i) {
      assert i < |h.actions| ==> Linked(h, i);
    }
  }

  // Two rotations that have both read the session of one login.
  lemma TwoReaders() returns (h: History)
    ensures IsHistory(h) && Last(h).tasks == map[1 := Claiming(100, 7), 2 := Claiming(100, 7)]
    ensures Last(h).rows == map[100 := Row(7, 50, None)] && Last(h).lineage == map[100 := 100]
  {
    h := History([EMPTY], []);
    h := Extend(h, Login(7, 100, 50));
    h := Extend(h, StartRotation(1, 100));
    h := Extend(h, StartRotation(2, 100));
    h := Extend(h, Proceed(1, 0, true, 101, 50));
    h := Extend(h, Proceed(2, 0, true, 101, 50));
  }

  // Two rotations of one token: the loser revokes everything, and the winner
  // then issues a session that stays live.
  lemma ReplayOutrunsTheWinner() returns (h: History)
    ensures IsHistory(h) && HasLive(Last(h), 7)
    ensures Last(h).tasks == map[1 := Finished(AlreadyUsed), 2 := Finished(Issued(101))]
  {
    h := TwoReaders();
    h := Extend(h, Proceed(2, 0, true, 101, 50));
    h := Extend(h, Proceed(1, 0, true, 101, 50));
    h := Extend(h, Proceed(1, 0, true, 101, 50));
    h := Extend(h, Proceed(2, 0, true, 101, 50));
    assert Live(Last(h).rows, 101);
  }

  // ------------------------------------------------------------------
  // How a request ends
  // ------------------------------------------------------------------

  ghost predicate Ends(h: History, i: nat, id: RequestId, outcome: Outcome)
    requires |h.worlds| == |h.actions| + 1 && i < |h.actions|
  {
    && id in h.worlds[i].tasks && !h.worlds[i].tasks[id].Finished?
    && id in h.worlds[i + 1].tasks && h.worlds[i + 1].tasks[id] == Finished(outcome)
  }

  ghost predicate OwnedAt(h: History, m: nat, hash: Hash, user: User)
    requires m < |h.worlds|
  {
    hash in h.worlds[m].rows && h.worlds[m].rows[hash].user == user
  }

  // At some moment the session was the user's.
  ghost predicate Owned(h: History, hash: Hash, user: User) {
    exists m :: 0 <= m < |h.worlds| && OwnedAt(h, m, hash, user)
  }

  lemma {:induction false} OwnerStays(h: History, i: nat, j: nat, hash: Hash, user: User)
    requires IsHistory(h) && i <= j < |h.worlds| && OwnedAt(h, i, hash, user)
    ensures hash in h.worlds[j].lineage
    ensures hash in h.worlds[j].rows ==> OwnedAt(h, j, hash, user)
  {
    EveryHistoryIsSafe(h, j);
    if i < j {
      OwnerStays(h, i, j - 1, hash, user);
      assert Linked(h, j - 1);
    }
  }

  // A session never changes hands.
  lemma OwnerIsUnique(h: History, hash: Hash, a: User, b: User)
    requires IsHistory(h) && Owned(h, hash, a) && Owned(h, hash, b)
    ensures a == b
  {
    var i :| 0 <= i < |h.worlds| && OwnedAt(h, i, hash, a);
    var j :| 0 <= j < |h.worlds| && OwnedAt(h, j, hash, b);
    if i <= j {
      OwnerStays(h, i, j, hash, a);
    } else {
      OwnerStays(h, j, i, hash, b);
    }
  }

  // The request read the session there, as the user's and unexpired.
  ghost predicate ReadAt(h: History, m: nat, id: RequestId, hash: Hash, user: User)
    requires m < |h.actions| && m < |h.worlds|
  {
    OwnedAt(h, m, hash, user) && match h.actions[m]
      case Proceed(request, now, _, _, _) => request == id && now < h.worlds[m].rows[hash].expires
      case _ => false
  }

  ghost predicate HasRead(h: History, i: nat, id: RequestId, hash: Hash, user: User)
    requires i <= |h.actions| && i <= |h.worlds|
  {
    exists m :: 0 <= m < i && ReadAt(h, m, id, hash, user)
  }

  // What a request that set out to rotate the session may be at.
  ghost predicate Rotates(h: History, j: nat, id: RequestId, task: Task, hash: Hash)
    requires j <= |h.actions| && j < |h.worlds|
  {
    match task
    case Selecting(t) => t == hash
    case Claiming(t, user) => t == hash && HasRead(h, j, id, hash, user)
    case Replayed(user) => HasRead(h, j, id, hash, user)
    case Winning(t, user) => t == hash && hash in h.worlds[j].claims && HasRead(h, j, id, hash, user)
    case LogoutSelecting(_) => false
    case LogoutMarking(_) => false
    case Finished(o) => !o.LoggedOut? && !o.NothingToRevoke?
  }

  lemma {:induction false} RotationStays(h: History, k: nat, j: nat, id: RequestId, hash: Hash)
    requires IsHistory(h) && k < j < |h.worlds| && h.actions[k] == StartRotation(id, hash)
    ensures id in h.worlds[j].tasks && Rotates(h, j, id, h.worlds[j].tasks[id], hash)
  {
    assert Linked(h, j - 1);
    if k + 1 < j {
      RotationStays(h, k, j - 1, id, hash);
      RotationStep(h, j - 1, id, hash);
    }
  }

  // A request moves by its own statements only, and nothing is forgotten.
  lemma OwnMoves(w: World, a: Action, id: RequestId)
    requires Enabled(w, a) && id in w.tasks
    ensures var v := Perform(w, a);
      && id in v.tasks && w.lineage.Keys <= v.lineage.Keys && (forall c :: c in w.claims ==> c in v.claims)
      && if a.Proceed? && a.id == id then v == Advance(w, id, a.now, a.active, a.new_, a.expires)
         else v.tasks[id] == w.tasks[id]
  {
  }

  lemma RotationStep(h: History, i: nat, id: RequestId, hash: Hash)
    requires |h.worlds| == |h.actions| + 1 && i < |h.actions| && Linked(h, i)
    requires id in h.worlds[i].tasks && Rotates(h, i, id, h.worlds[i].tasks[id], hash)
    ensures id in h.worlds[i + 1].tasks && Rotates(h, i + 1, id, h.worlds[i + 1].tasks[id], hash)
  {
    OwnMoves(h.worlds[i], h.actions[i], id);
    var task, next := h.worlds[i].tasks[id], h.worlds[i + 1].tasks[id];
    if task.Selecting? && next.Claiming? {
      assert ReadAt(h, i, id, hash, next.user);
    }
    if task.Claiming? || task.Replayed? || task.Winning? {
      assert HasRead(h, i + 1, id, hash, task.user);
    }
  }

  // What the request at step i was given.
  ghost predicate Given(h: History, i: nat, id: RequestId, active: bool, now: int)
    requires i < |h.actions|
  {
    match h.actions[i]
    case Proceed(request, at, alive, _, _) => request == id && at == now && alive == active
    case _ => false
  }

  // However others interleave with it: a rotation that finds its session used
  // leaves the owner without a live one, and nobody else touched; one that
  // gets as far as issuing has read the session unexpired, has spent it, and
  // brings its owner, if active, one live session of the same login; any other
  // ending changes no row.
  lemma RotationEndsAs(h: History, k: nat, i: nat, id: RequestId, hash: Hash, outcome: Outcome)
    returns (owner: User, active: bool, now: int)
    requires IsHistory(h) && k < i < |h.actions| && h.actions[k] == StartRotation(id, hash)
    requires Ends(h, i, id, outcome)
    ensures Given(h, i, id, active, now)
    ensures outcome in {AlreadyUsed, Inactive} || outcome.Issued? ==>
              HasRead(h, i, id, hash, owner) && !Live(h.worlds[i + 1].rows, hash)
    ensures forall u :: HasRead(h, i, id, hash, u) ==> Owned(h, hash, u)
    ensures var rows, after := h.worlds[i].rows, h.worlds[i + 1].rows;
      match outcome
      case Unrecognised => hash !in rows && after == rows
      case Expired => hash in rows && rows[hash].expires <= now && after == rows
      case Inactive => !active && after == rows
      case AlreadyUsed =>
        && !HasLive(h.worlds[i + 1], owner)
        && after.Keys == rows.Keys && forall t :: t in rows && rows[t].user != owner ==> after[t] == rows[t]
      case Issued(fresh_) =>
        && active && Live(after, fresh_) && after[fresh_].user == owner
        && fresh_ !in h.worlds[i].lineage && after.Keys == rows.Keys + {fresh_}
        && LoginOf(h.worlds[i + 1], fresh_) == LoginOf(h.worlds[i], hash)
        && forall t :: t in rows ==> after[t] == rows[t]
      case _ => false
  {
    var w := h.worlds[i];
    RotationStays(h, k, i, id, hash);
    EveryHistoryIsSafe(h, i);
    assert Linked(h, i);
    active, now := h.actions[i].active, h.actions[i].now;
    owner := if w.tasks[id].Replayed? || w.tasks[id].Winning? then w.tasks[id].user else 0;
    if outcome.AlreadyUsed? && hash in w.rows {
      assert OwnedAt(h, i, hash, w.rows[hash].user);
      OwnerIsUnique(h, hash, owner, w.rows[hash].user);
    }
  }

  // A statement of the request met the session live.
  ghost predicate MetLive(h: History, i: nat, id: RequestId, hash: Hash)
    requires i <= |h.actions| && i <= |h.worlds|
  {
    exists m :: 0 <= m < i && MetLiveAt(h, m, id, hash)
  }

  ghost predicate MetLiveAt(h: History, m: nat, id: RequestId, hash: Hash)
    requires m < |h.actions| && m < |h.worlds|
  {
    h.actions[m].Proceed? && h.actions[m].id == id && Live(h.worlds[m].rows, hash)
  }

  ghost predicate LogsOut(h: History, j: nat, id: RequestId, task: Task, hash: Hash)
    requires j <= |h.actions| && j < |h.worlds|
  {
    match task
    case LogoutSelecting(t) => t == hash
    case LogoutMarking(t) => t == hash && hash in h.worlds[j].lineage && MetLive(h, j, id, hash)
    case Finished(o) => o.LoggedOut? || o.NothingToRevoke?
    case _ => false
  }

  lemma {:induction false} LogoutStays(h: History, k: nat, j: nat, id: RequestId, hash: Hash)
    requires IsHistory(h) && k < j < |h.worlds| && h.actions[k] == StartLogout(id, hash)
    ensures id in h.worlds[j].tasks && LogsOut(h, j, id, h.worlds[j].tasks[id], hash)
  {
    assert Linked(h, j - 1);
    if k + 1 < j {
      EveryHistoryIsSafe(h, j - 1);
      LogoutStays(h, k, j - 1, id, hash);
      LogoutStep(h, j - 1, id, hash);
    }
  }

  lemma LogoutStep(h: History, i: nat, id: RequestId, hash: Hash)
    requires |h.worlds| == |h.actions| + 1 && i < |h.actions| && Linked(h, i) && Recorded(h.worlds[i])
    requires id in h.worlds[i].tasks && LogsOut(h, i, id, h.worlds[i].tasks[id], hash)
    ensures id in h.worlds[i + 1].tasks && LogsOut(h, i + 1, id, h.worlds[i + 1].tasks[id], hash)
  {
    OwnMoves(h.worlds[i], h.actions[i], id);
    var task, next := h.worlds[i].tasks[id], h.worlds[i + 1].tasks[id];
    if task.LogoutSelecting? && next.LogoutMarking? {
      assert MetLiveAt(h, i, id, hash);
    }
    if task.LogoutMarking? {
      assert MetLive(h, i + 1, id, hash);
    }
  }

  // However others interleave with it, a logout leaves its session dead for
  // good, unless there is no such session yet, and touches no other. It
  // revokes only a session it has met live.
  lemma LogoutEndsTheSession(h: History, k: nat, i: nat, j: nat, id: RequestId, hash: Hash, outcome: Outcome)
    requires IsHistory(h) && k < i < j < |h.worlds| && h.actions[k] == StartLogout(id, hash)
    requires Ends(h, i, id, outcome)
    ensures match outcome
      case LoggedOut => hash in h.worlds[i].lineage && MetLive(h, i, id, hash)
      case NothingToRevoke => !Live(h.worlds[i].rows, hash) && h.worlds[i + 1].rows == h.worlds[i].rows
      case _ => false
    ensures hash in h.worlds[i].lineage ==> !Live(h.worlds[j].rows, hash)
    ensures h.worlds[i + 1].rows.Keys == h.worlds[i].rows.Keys
    ensures forall t :: t in h.worlds[i].rows && t != hash ==> h.worlds[i + 1].rows[t] == h.worlds[i].rows[t]
  {
    LogoutStays(h, k, i, id, hash);
    assert Linked(h, i);
    if hash in h.worlds[i].lineage {
      RevocationIsFinal(h, i + 1, j, hash);
    }
  }

  // A revocation of everything ends every session of the user and no other's,
  // and with no winner under way only a login gives the user one again.
  lemma EverythingStaysRevoked(h: History, i: nat, j: nat, user: User, now: int)
    requires IsHistory(h) && i < j < |h.worlds| && h.actions[i] == RevokeEverything(user, now)
    ensures !HasLive(h.worlds[i + 1], user) && h.worlds[i + 1].rows.Keys == h.worlds[i].rows.Keys
    ensures forall t :: t in h.worlds[i].rows && h.worlds[i].rows[t].user != user ==>
              h.worlds[i + 1].rows[t] == h.worlds[i].rows[t]
    ensures !HasWinner(h.worlds[i], user)
            && (forall k :: i < k < j && h.actions[k].Login? ==> h.actions[k].user != user) ==>
              !HasLive(h.worlds[j], user)
  {
    assert Linked(h, i);
    var v := h.worlds[i + 1];
    forall t | t in v.rows && v.rows[t].user == user ensures !Live(v.rows, t) {
    }
    if !HasWinner(h.worlds[i], user)
       && forall k :: i < k < j && h.actions[k].Login? ==> h.actions[k].user != user {
      forall r ensures !IsWinner(v, user, r) {
        assert !IsWinner(h.worlds[i], user, r);
      }
      DormantUntilLogin(h, i + 1, j, user);
    }
  }

  // A purge takes the sessions that expired more than a day before, dead or
  // alive, and nothing else.
  lemma PurgeTakesTheOld(h: History, i: nat, now: int)
    requires IsHistory(h) && i < |h.actions| && h.actions[i] == PurgeExpired(now)
    ensures var rows, after := h.worlds[i].rows, h.worlds[i + 1].rows;
      forall t :: (t in after <==> t in rows && now <= rows[t].expires + 24 * 60 * 60)
                  && (t in after ==> after[t] == rows[t])
  {
    assert Linked(h, i);
  }

  // ------------------------------------------------------------------
  // One rotation on its own
  // ------------------------------------------------------------------

  // A rotation nobody interrupts.
  function Rotation(rows: Rows, hash: Hash, now: int, active: set<User>, new_: Hash, expires: int): (Rows, Outcome) {
    if hash !in rows then (rows, Unrecognised)
    else if rows[hash].expires <= now then (rows, Expired)
    else
      var user := rows[hash].user;
      if !Live(rows, hash) then (RevokeAll(rows, user, now), AlreadyUsed)
      else if user !in active then (Mark(rows, hash, now), Inactive)
      else (Mark(rows, hash, now)[new_ := Row(user, expires, None)], Issued(new_))
  }

  // It does what its statements do when they follow on one another.
  lemma RotationIsItsStatements(w: World, id: RequestId, hash: Hash, now: int, active: set<User>,
                                new_: Hash, expires: int)
    requires id !in w.tasks && hash != new_
    ensures var (rows, outcome) := Rotation(w.rows, hash, now, active, new_, expires);
      var alive := hash in w.rows && w.rows[hash].user in active;
      var w1 := Advance(Become(w, id, Selecting(hash)), id, now, alive, new_, expires);
      var w2 := Advance(w1, id, now, alive, new_, expires);
      var w3 := Advance(w2, id, now, alive, new_, expires);
      w3.rows == rows && w3.tasks[id] == Finished(outcome)
  {
  }

  function LiveHashes(rows: Rows): set<Hash> {
    set h | h in rows && Live(rows, h)
  }

  lemma Without(whole: set<Hash>, part: set<Hash>, rest: set<Hash>)
    requires part <= whole && forall h :: h in rest <==> h in whole && h !in part
    ensures |whole| == |part| + |rest|
  {
    forall h ensures h in rest <==> h in whole - part {
    }
    assert rest == whole - part;
  }

  class AuthService {
    var rows: Rows

    constructor ()
      ensures rows == map[]
    {
      rows := map[];
    }

    method IssueRefreshToken(user: User, new_: Hash, expires: int)
      modifies this
      ensures rows == old(rows)[new_ := Row(user, expires, None)]
    {
      rows := rows[new_ := Row(user, expires, None)];
    }

    // How many rows the conditional update claimed.
    method ClaimSession(hash: Hash, now: int) returns (claimed: nat)
      modifies this
      ensures rows == Claim(old(rows), hash, now)
      ensures claimed == if Live(old(rows), hash) then 1 else 0
    {
      claimed := if Live(rows, hash) then 1 else 0;
      rows := Claim(rows, hash, now);
    }

    method RevokeAllSessions(user: User, now: int) returns (count: nat)
      modifies this
      ensures rows == RevokeAll(old(rows), user, now)
      ensures rows.Keys == old(rows).Keys
      ensures forall h :: h in rows && (old(rows)[h].user != user || old(rows)[h].revokedAt.Some?) ==>
                rows[h] == old(rows)[h]
      ensures |LiveHashes(old(rows))| == |LiveHashes(rows)| + count
      ensures forall h :: h in LiveHashes(rows) <==> h in LiveHashes(old(rows)) && old(rows)[h].user != user
      ensures forall h :: h in rows && h in LiveHashes(old(rows)) && h !in LiveHashes(rows) ==>
                rows[h].revokedAt == Some(now)
    {
      var matching := set h | h in rows && rows[h].user == user && Live(rows, h);
      ghost var before := rows;
      rows := RevokeAll(rows, user, now);
      count := |matching|;
      Without(LiveHashes(before), matching, LiveHashes(rows));
    }

    // token is None when it does not decode.
    method RotateRefreshToken(token: Option<Hash>, now: int, active: set<User>, new_: Hash, expires: int)
      returns (outcome: Outcome)
      requires token != Some(new_)
      modifies this
      ensures token == None ==> rows == old(rows) && outcome == Invalid
      ensures token.Some? ==> (rows, outcome) == Rotation(old(rows), token.value, now, active, new_, expires)
      ensures outcome in {Invalid, Unrecognised, Expired} ==> rows == old(rows)
      ensures outcome == Unrecognised <==> token.Some? && token.value !in old(rows)
      ensures outcome == Expired <==> token.Some? && token.value in old(rows) && old(rows)[token.value].expires <= now
      ensures outcome == AlreadyUsed ==>
        && token.value in old(rows) && !Live(old(rows), token.value)
        && forall h :: Live(rows, h) <==> Live(old(rows), h) && old(rows)[h].user != old(rows)[token.value].user
      ensures outcome == Inactive || outcome.Issued? ==>
        && Live(old(rows), token.value) && token.value in rows && rows[token.value].revokedAt == Some(now)
        && forall h :: h in old(rows) && h != token.value && outcome != Issued(h) ==>
             h in rows && rows[h] == old(rows)[h]
      ensures outcome == Inactive ==> old(rows)[token.value].user !in active
      ensures outcome.Issued? ==>
        && outcome == Issued(new_) && old(rows)[token.value].user in active
        && new_ in rows && rows[new_] == Row(old(rows)[token.value].user, expires, None)
    {
      if token == None {
        return Invalid;
      }
      var hash := token.value;
      if hash !in rows {
        return Unrecognised;
      }
      var session := rows[hash];
      if session.expires <= now {
        return Expired;
      }
      var claimed := ClaimSession(hash, now);
      if claimed == 0 {
        var _ := RevokeAllSessions(session.user, now);
        return AlreadyUsed;
      }
      if session.user !in active {
        return Inactive;
      }
      IssueRefreshToken(session.user, new_, expires);
      return Issued(new_);
    }

    method RevokeRefreshToken(token: Option<Hash>, now: int) returns (revoked: bool)
      modifies this
      ensures revoked <==> token.Some? && Live(old(rows), token.value)
      ensures rows == if revoked then Mark(old(rows), token.value, now) else old(rows)
      ensures token.Some? ==> !Live(rows, token.value)
      ensures revoked ==> token.value in rows && rows[token.value].revokedAt == Some(now)
      ensures forall h :: h in old(rows) && token != Some(h) ==> h in rows && rows[h] == old(rows)[h]
    {
      if token == None || token.value !in rows || rows[token.value].revokedAt != None {
        return false;
      }
      rows := Mark(rows, token.value, now);
      return true;
    }

    method PurgeExpiredSessions(now: int) returns (deleted: nat)
      modifies this
      ensures rows == Purge(old(rows), now)
      ensures |old(rows)| == |rows| + deleted
      ensures forall h :: h in rows <==> h in old(rows) && old(rows)[h].expires >= now - DAY
    {
      var matching := set h | h in rows && rows[h].expires < now - DAY;
      ghost var before := rows;
      rows := Purge(rows, now);
      deleted := |matching|;
      Without(before.Keys, matching, rows.Keys);
    }
  }
}
