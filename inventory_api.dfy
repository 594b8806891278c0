/** The inventory service of the branch-based schema: stock rows keyed by
    (branch, product), an append-only movement log, the SUPER_ADMIN / own-branch
    permission rule, and the movement recorder that keeps a row in step with
    each movement (src/lib/api/inventory.ts). */
module InventoryApi {
  import opened Prelude

  datatype MovementType = Ingress | Egress | Adjustment | Loss

  datatype Employee = Employee(id: string, branchId: string)

  /** The authenticated user as the service sees it: its role names and, when
      it is also an employee, that employee record. */
  datatype User = User(id: string, roles: seq<string>, employee: Option<Employee>)

  /** Outcome of the session lookup and the user lookup that open every call. */
  datatype Auth = NoSession | UnknownUser | Authenticated(user: User)

  datatype Key = Key(branchId: string, productId: string)

  /** A stock row; its key is the (branch, product) pair it is stored under. */
  datatype Row = Row(id: string, quantity: real, minStock: real, updatedAt: int)

  datatype Movement = Movement(
    kind: MovementType,
    productId: string,
    quantity: real,
    branchId: string,
    employeeId: Option<string>,
    userId: string,
    notes: Option<string>,
    reference: Option<string>,
    date: int)

  /** The request of `createInventoryMovement`. */
  datatype MovementInput = MovementInput(
    kind: MovementType,
    productId: string,
    quantity: real,
    branchId: string,
    notes: Option<string>,
    reference: Option<string>)

  /** The request of `updateInventoryItem`: an absent field is left as it is. */
  datatype ItemUpdate = ItemUpdate(quantity: Option<real>, minStock: Option<real>)

  datatype Error =
    | NotAuthenticated
    | UserNotFound
    | ItemNotFound
    | ForbiddenView
    | ForbiddenUpdate
    | ForbiddenMovements
    | ForbiddenCreate

  /** The text each error is thrown with. */
  function Message(e: Error): (r: string)
    ensures |r| > 0
  {
    match e
    case NotAuthenticated => "No autenticado"
    case UserNotFound => "Usuario no encontrado"
    case ItemNotFound => "Item no encontrado"
    case ForbiddenView => "No tienes permisos para ver este item"
    case ForbiddenUpdate => "No tienes permisos para actualizar este item"
    case ForbiddenMovements => "No tienes permisos para ver estos movimientos"
    case ForbiddenCreate => "No tienes permisos para crear movimientos en esta sucursal"
  }

  /** No two errors share a text, so a caller can tell them apart by it. */
  lemma MessagesDistinct(e1: Error, e2: Error)
    ensures Message(e1) == Message(e2) ==> e1 == e2
  {
    assert |Message(e1)| == |Message(e2)| ==> e1 == e2;
  }

  /** The two checks every call starts with. */
  function Authenticate(auth: Auth): (r: Result<User, Error>)
    ensures auth.NoSession? <==> r == Err(NotAuthenticated)
    ensures auth.UnknownUser? <==> r == Err(UserNotFound)
    ensures auth.Authenticated? <==> r.Ok?
    ensures auth.Authenticated? ==> r == Ok(auth.user)
  {
    match auth
    case NoSession => Err(NotAuthenticated)
    case UnknownUser => Err(UserNotFound)
    case Authenticated(u) => Ok(u)
  }

  predicate IsSuperAdmin(u: User)
  {
    "SUPER_ADMIN" in u.roles
  }

  /** The permission test shared by item reads, item updates, movement reads
      and movement creation: a SUPER_ADMIN may act on any branch, anyone else
      only on the branch of their own employee record. */
  predicate MayActOn(u: User, branchId: string): (r: bool)
    ensures IsSuperAdmin(u) ==> r
    ensures r && !IsSuperAdmin(u) ==> u.employee.Some? && u.employee.value.branchId == branchId
  {
    IsSuperAdmin(u) || (u.employee.Some? && u.employee.value.branchId == branchId)
  }

  /** A user who is neither SUPER_ADMIN nor an employee may act on no branch. */
  lemma PermissionRule(u: User)
    ensures u.employee.None? && !IsSuperAdmin(u) ==> forall b :: !MayActOn(u, b)
  {
  }

  // ---------------------------------------------------------------------------
  // Inventory scoping

  /** A row filter: every row, the rows of one branch, or no row at all. */
  datatype Where = AnyBranch | OnlyBranch(branchId: string) | NoBranch

  predicate InScope(w: Where, k: Key)
  {
    match w
    case AnyBranch => true
    case OnlyBranch(b) => k.branchId == b
    case NoBranch => false
  }

  /** The rows a filter lets through, with their keys and contents intact. */
  function Visible(rows: map<Key, Row>, w: Where): (r: map<Key, Row>)
    ensures forall k :: k in r <==> k in rows && InScope(w, k)
    ensures forall k :: k in r ==> r[k] == rows[k]
  {
    map k | k in rows && InScope(w, k) :: rows[k]
  }

  /** The filter `getInventory` builds, as the store applies it: a missing or
      empty branch argument gives a SUPER_ADMIN no filter, and for anyone else
      the filter names the employee's branch; when the user has no employee
      record that branch is undefined, and an undefined field in a filter
      is dropped, so no filter is applied at all. */
  function InventoryWhereAsWritten(u: User, branchFilter: Option<string>): (w: Where)
    ensures w != NoBranch
  {
    if IsSuperAdmin(u) then
      if branchFilter.Some? && branchFilter.value != "" then OnlyBranch(branchFilter.value) else AnyBranch
    else
      match u.employee
      case Some(e) => OnlyBranch(e.branchId)
      case None => AnyBranch
  }

  /** As written, a user who is neither SUPER_ADMIN nor an employee sees the
      rows of every branch. */
  lemma UnscopedUserSeesAllAsWritten(rows: map<Key, Row>, branchFilter: Option<string>)
    ensures var u := User("u1", ["USER"], None);
      Visible(rows, InventoryWhereAsWritten(u, branchFilter)) == rows
  {
    var u := User("u1", ["USER"], None);
    assert !IsSuperAdmin(u);
  }

  /** The scoping rule as intended: a user without SUPER_ADMIN and without an
      employee record has no branch, so sees no row. */
  function InventoryWhere(u: User, branchFilter: Option<string>): (w: Where)
    ensures !IsSuperAdmin(u) && u.employee.None? ==> w == NoBranch
    ensures u.employee.Some? || IsSuperAdmin(u) ==> w == InventoryWhereAsWritten(u, branchFilter)
  {
    if !IsSuperAdmin(u) && u.employee.None? then NoBranch
    else InventoryWhereAsWritten(u, branchFilter)
  }

  /** What `getInventory` returns for each kind of caller. */
  lemma ScopingRule(rows: map<Key, Row>, u: User, branchFilter: Option<string>)
    ensures var vis := Visible(rows, InventoryWhere(u, branchFilter));
      && (IsSuperAdmin(u) && (branchFilter.None? || branchFilter == Some("")) ==> vis == rows)
      && (IsSuperAdmin(u) && branchFilter.Some? && branchFilter.value != "" ==>
            forall k :: k in vis <==> k in rows && k.branchId == branchFilter.value)
      && (!IsSuperAdmin(u) ==>
            forall k :: k in vis <==> k in rows && u.employee.Some? && k.branchId == u.employee.value.branchId)
      && (forall k :: k in vis ==> k in rows && vis[k] == rows[k] && MayActOn(u, k.branchId))
  {
  }

  // ---------------------------------------------------------------------------
  // The movement recorder's stock rule, on values

  /** The signed effect of one movement on an existing row: INGRESS adds,
      every other type subtracts. */
  function Delta(kind: MovementType, quantity: real): (d: real)
    ensures kind == Ingress ==> d == quantity
    ensures kind != Ingress ==> d == -quantity
  {
    if kind == Ingress then quantity else -quantity
  }

  function KeyOf(m: Movement): Key
  {
    Key(m.branchId, m.productId)
  }

  /** The quantity the movement recorder holds for `k` after replaying `log`
      from an empty table: absent until the first INGRESS on `k`, which
      creates it; from then on every movement on `k` applies its delta. */
  function Tracked(log: seq<Movement>, k: Key): (r: Option<real>)
    ensures r.Some? ==> HasIngress(log, k)
  {
    if log == [] then None
    else
      var prev := Tracked(log[..|log| - 1], k);
      var m := log[|log| - 1];
      if KeyOf(m) != k then prev
      else match prev
        case Some(q) => Some(q + Delta(m.kind, m.quantity))
        case None => if m.kind == Ingress then Some(m.quantity) else None
  }

  /** The signed sum of all logged movements on `k`. */
  function SignedSum(log: seq<Movement>, k: Key): real
  {
    if log == [] then 0.0
    else
      var m := log[|log| - 1];
      SignedSum(log[..|log| - 1], k) + (if KeyOf(m) == k then Delta(m.kind, m.quantity) else 0.0)
  }

  predicate HasIngress(log: seq<Movement>, k: Key)
  {
    exists i :: 0 <= i < |log| && KeyOf(log[i]) == k && log[i].kind == Ingress
  }

  /** Index of the first INGRESS on `k`. */
  function FirstIngress(log: seq<Movement>, k: Key): (i: nat)
    requires HasIngress(log, k)
    ensures i < |log| && KeyOf(log[i]) == k && log[i].kind == Ingress
    ensures forall j :: 0 <= j < i ==> !(KeyOf(log[j]) == k && log[j].kind == Ingress)
  {
    if KeyOf(log[0]) == k && log[0].kind == Ingress then 0
    else
      assert HasIngress(log[1..], k) by {
        var i :| 0 <= i < |log| && KeyOf(log[i]) == k && log[i].kind == Ingress;
        assert log[1..][i - 1] == log[i];
      }
      1 + FirstIngress(log[1..], k)
  }

  lemma {:induction false} SignedSumAppend(log: seq<Movement>, m: Movement, k: Key)
    ensures SignedSum(log + [m], k) == SignedSum(log, k) + (if KeyOf(m) == k then Delta(m.kind, m.quantity) else 0.0)
  {
    assert (log + [m])[..|log|] == log;
  }

  lemma HasIngressAppend(init: seq<Movement>, m: Movement, k: Key)
    ensures HasIngress(init + [m], k) <==> HasIngress(init, k) || (KeyOf(m) == k && m.kind == Ingress)
  {
    var log := init + [m];
    assert forall j :: 0 <= j < |init| ==> log[j] == init[j];
    assert log[|init|] == m;
  }

  lemma FirstIngressPrefix(init: seq<Movement>, m: Movement, k: Key)
    requires HasIngress(init, k)
    ensures HasIngress(init + [m], k) && FirstIngress(init + [m], k) == FirstIngress(init, k)
  {
    HasIngressAppend(init, m, k);
    var log := init + [m];
    assert forall j :: 0 <= j < |init| ==> log[j] == init[j];
  }

  lemma FirstIngressLast(init: seq<Movement>, m: Movement, k: Key)
    requires !HasIngress(init, k) && KeyOf(m) == k && m.kind == Ingress
    ensures HasIngress(init + [m], k) && FirstIngress(init + [m], k) == |init|
  {
    HasIngressAppend(init, m, k);
    var log := init + [m];
    assert forall j :: 0 <= j < |init| ==> log[j] == init[j];
    assert log[|init|] == m;
  }

  /** The row for `k` exists exactly when an INGRESS on `k` has been logged,
      and then holds the signed sum of the movements from that first INGRESS
      on: movements on `k` logged before it are never counted. */
  lemma {:induction false} TrackedFromFirstIngress(log: seq<Movement>, k: Key)
    ensures Tracked(log, k).Some? <==> HasIngress(log, k)
    ensures HasIngress(log, k) ==>
      Tracked(log, k) == Some(SignedSum(log[FirstIngress(log, k)..], k))
  {
    if log != [] {
      var n := |log| - 1;
      var init, m := log[..n], log[n];
      assert log == init + [m];
      TrackedFromFirstIngress(init, k);
      HasIngressAppend(init, m, k);
      if HasIngress(init, k) {
        FirstIngressPrefix(init, m, k);
        var f := FirstIngress(init, k);
        TrackedStepCounted(init, m, k, f, SignedSum(init[f..], k));
      } else if KeyOf(m) == k && m.kind == Ingress {
        FirstIngressLast(init, m, k);
        assert log[n..] == [] + [m];
        SignedSumAppend([], m, k);
      }
    }
  }

  /** Once the row exists, one more movement adds its delta on both sides. */
  lemma TrackedStepCounted(init: seq<Movement>, m: Movement, k: Key, f: nat, s: real)
    requires f <= |init| && Tracked(init, k) == Some(s) && s == SignedSum(init[f..], k)
    ensures Tracked(init + [m], k) == Some(SignedSum((init + [m])[f..], k))
  {
    TrackedAppend(init, m, k);
    assert Tracked(init + [m], k) == Some(s + (if KeyOf(m) == k then Delta(m.kind, m.quantity) else 0.0));
    assert (init + [m])[f..] == init[f..] + [m];
    SignedSumAppend(init[f..], m, k);
  }

  lemma TrackedAppend(init: seq<Movement>, m: Movement, k: Key)
    ensures Tracked(init + [m], k) ==
      if KeyOf(m) != k then Tracked(init, k)
      else match Tracked(init, k)
        case Some(q) => Some(q + Delta(m.kind, m.quantity))
        case None => if m.kind == Ingress then Some(m.quantity) else None
  {
    assert (init + [m])[..|init|] == init;
  }

  /** When the log holds no movement on `k` before its first INGRESS, the row
      for `k` is the signed sum of every movement on `k`. */
  lemma {:induction false} TrackedIsSignedSumWhenIngressFirst(log: seq<Movement>, k: Key)
    requires HasIngress(log, k)
    requires forall j :: 0 <= j < FirstIngress(log, k) ==> KeyOf(log[j]) != k
    ensures Tracked(log, k) == Some(SignedSum(log, k))
  {
    TrackedFromFirstIngress(log, k);
    SignedSumSkip(log, FirstIngress(log, k), k);
  }

  /** Dropping a prefix without movements on `k` leaves the signed sum alone. */
  lemma {:induction false} SignedSumSkip(log: seq<Movement>, i: nat, k: Key)
    requires i <= |log|
    requires forall j :: 0 <= j < i ==> KeyOf(log[j]) != k
    ensures SignedSum(log[i..], k) == SignedSum(log, k)
    decreases |log|
  {
    if |log| > i {
      var n := |log| - 1;
      SignedSumSkip(log[..n], i, k);
      assert log[i..][..|log[i..]| - 1] == log[..n][i..];
      assert log[i..][|log[i..]| - 1] == log[n];
    } else {
      assert log[i..] == [];
      SignedSumNone(log, k);
    }
  }

  lemma {:induction false} SignedSumNone(log: seq<Movement>, k: Key)
    requires forall j :: 0 <= j < |log| ==> KeyOf(log[j]) != k
    ensures SignedSum(log, k) == 0.0
  {
    if log != [] {
      SignedSumNone(log[..|log| - 1], k);
    }
  }

  /** A LOSS logged before the first INGRESS is never counted: the row ends
      at 10 while the signed sum of its movements is 5. */
  lemma LossBeforeFirstIngressIsLost()
    ensures var k := Key("b1", "p1");
      var log := [Movement(Loss, "p1", 5.0, "b1", None, "u1", None, None, 1),
                  Movement(Ingress, "p1", 10.0, "b1", None, "u1", None, None, 2)];
      Tracked(log, k) == Some(10.0) && SignedSum(log, k) == 5.0
  {
    var k := Key("b1", "p1");
    var log := [Movement(Loss, "p1", 5.0, "b1", None, "u1", None, None, 1),
                Movement(Ingress, "p1", 10.0, "b1", None, "u1", None, None, 2)];
    assert log[..1] == [log[0]];
    assert log[..1][..0] == [];
  }

  /** The stock table agrees with the replay of the movement log. */
  ghost predicate Reconciled(rows: map<Key, Row>, log: seq<Movement>)
  {
    forall k :: (k in rows <==> Tracked(log, k).Some?) &&
                (k in rows ==> rows[k].quantity == Tracked(log, k).value)
  }

  /** `updateInventoryItem`'s write: only the fields it is given change. */
  function Overwrite(row: Row, data: ItemUpdate, now: int): (r: Row)
    ensures r.id == row.id && r.updatedAt == now
    ensures r.quantity == (if data.quantity.Some? then data.quantity.value else row.quantity)
    ensures r.minStock == (if data.minStock.Some? then data.minStock.value else row.minStock)
  {
    Row(row.id,
        match data.quantity case Some(q) => q case None => row.quantity,
        match data.minStock case Some(s) => s case None => row.minStock,
        now)
  }

  /** A direct overwrite of a row's quantity breaks the agreement with the log. */
  lemma OverwriteBreaksReconciliation()
    ensures var k := Key("b1", "p1");
      var log := [Movement(Ingress, "p1", 10.0, "b1", None, "u1", None, None, 1)];
      var rows := map[k := Row("r1", 10.0, 0.0, 1)];
      Reconciled(rows, log) &&
      !Reconciled(rows[k := Overwrite(rows[k], ItemUpdate(Some(3.0), None), 2)], log)
  {
    var k := Key("b1", "p1");
    var log := [Movement(Ingress, "p1", 10.0, "b1", None, "u1", None, None, 1)];
    assert log[..0] == [];
    var rows := map[k := Row("r1", 10.0, 0.0, 1)];
    forall k' ensures (k' in rows <==> Tracked(log, k').Some?) &&
                      (k' in rows ==> rows[k'].quantity == Tracked(log, k').value)
    {
    }
  }

  /** Newest first: the log is appended in time order. */
  function Reverse(s: seq<Movement>): (r: seq<Movement>)
    ensures |r| == |s|
    ensures forall i :: 0 <= i < |s| ==> r[i] == s[|s| - 1 - i]
  {
    if s == [] then [] else Reverse(s[1..]) + [s[0]]
  }

  /** The movements of one product, and of one branch when a branch is given,
      in log order. */
  function Select(log: seq<Movement>, productId: string, branch: Option<string>): (r: seq<Movement>)
    ensures |r| <= |log|
    ensures forall m :: m in r <==> m in log && m.productId == productId && (branch.Some? ==> m.branchId == branch.value)
  {
    if log == [] then []
    else
      var rest := Select(log[1..], productId, branch);
      assert forall m :: m in log <==> m == log[0] || m in log[1..];
      if log[0].productId == productId && (branch.Some? ==> log[0].branchId == branch.value)
      then [log[0]] + rest
      else rest
  }

  /** Selecting from a log split in two selects from each part, in order: the
      selection keeps the log's order and every repeat of a movement. */
  lemma {:induction false} SelectAppend(a: seq<Movement>, b: seq<Movement>, productId: string, branch: Option<string>)
    ensures Select(a + b, productId, branch) == Select(a, productId, branch) + Select(b, productId, branch)
  {
    if a == [] {
      assert a + b == b;
    } else {
      assert (a + b)[0] == a[0];
      assert (a + b)[1..] == a[1..] + b;
      SelectAppend(a[1..], b, productId, branch);
    }
  }

  // ---------------------------------------------------------------------------
  // The service over the store

  class InventoryStore {
    var rows: map<Key, Row>
    var log: seq<Movement>

    /** Row ids are unique. */
    ghost predicate Valid()
      reads this
    {
      forall k1, k2 :: k1 in rows && k2 in rows && rows[k1].id == rows[k2].id ==> k1 == k2
    }

    /** `id` is not the id of any row. */
    ghost predicate FreshId(id: string)
      reads this
    {
      forall k :: k in rows ==> rows[k].id != id
    }

    constructor ()
      ensures Valid() && rows == map[] && log == []
      ensures Reconciled(rows, log)
    {
      rows := map[];
      log := [];
    }

    /** `getInventory`: the rows the caller's scope lets through. */
    method GetInventory(auth: Auth, branchFilter: Option<string>) returns (r: Result<map<Key, Row>, Error>)
      ensures Authenticate(auth).Err? ==> r == Err(Authenticate(auth).error)
      ensures auth.Authenticated? ==> r == Ok(Visible(rows, InventoryWhere(auth.user, branchFilter)))
    {
      var who := Authenticate(auth);
      if who.Err? {
        return Err(who.error);
      }
      r := Ok(Visible(rows, InventoryWhere(who.value, branchFilter)));
    }

    /** `getInventoryItem`: the row with the given id, `None` when there is
        none, and a permission error when it belongs to another branch. */
    method GetItem(auth: Auth, id: string) returns (r: Result<Option<(Key, Row)>, Error>)
      requires Valid()
      ensures Authenticate(auth).Err? ==> r == Err(Authenticate(auth).error)
      ensures auth.Authenticated? && (forall k :: k in rows ==> rows[k].id != id) ==> r == Ok(None)
      ensures auth.Authenticated? && r.Ok? && r.value.Some? ==>
        var (k, row) := r.value.value;
        k in rows && rows[k] == row && row.id == id && MayActOn(auth.user, k.branchId)
      ensures auth.Authenticated? && r.Err? ==>
        r.error == ForbiddenView &&
        exists k :: k in rows && rows[k].id == id && !MayActOn(auth.user, k.branchId)
      ensures auth.Authenticated? && r == Ok(None) ==> forall k :: k in rows ==> rows[k].id != id
      ensures auth.Authenticated? ==>
        forall k :: k in rows && rows[k].id == id && !MayActOn(auth.user, k.branchId) ==> r == Err(ForbiddenView)
      ensures auth.Authenticated? ==>
        forall k :: k in rows && rows[k].id == id && MayActOn(auth.user, k.branchId) ==> r == Ok(Some((k, rows[k])))
    {
      var who := Authenticate(auth);
      if who.Err? {
        return Err(who.error);
      }
      if !exists k :: k in rows && rows[k].id == id {
        return Ok(None);
      }
      var k :| k in rows && rows[k].id == id;
      if !MayActOn(who.value, k.branchId) {
        return Err(ForbiddenView);
      }
      r := Ok(Some((k, rows[k])));
    }

    /** `updateInventoryItem`: overwrite one row's quantity and minimum. */
    method UpdateItem(auth: Auth, id: string, data: ItemUpdate, now: int) returns (r: Result<Row, Error>)
      requires Valid()
      modifies this
      ensures Valid() && log == old(log)
      ensures Authenticate(auth).Err? ==> r == Err(Authenticate(auth).error) && rows == old(rows)
      ensures auth.Authenticated? && (forall k :: k in old(rows) ==> old(rows)[k].id != id) ==>
        r == Err(ItemNotFound) && rows == old(rows)
      ensures r.Err? ==> rows == old(rows)
      ensures auth.Authenticated? && r == Err(ForbiddenUpdate) ==>
        exists k :: k in old(rows) && old(rows)[k].id == id && !MayActOn(auth.user, k.branchId)
      ensures r.Ok? ==>
        exists k :: (k in old(rows) && old(rows)[k].id == id &&
                     MayActOn(auth.user, k.branchId) &&
                     r.value == Overwrite(old(rows)[k], data, now) &&
                     rows == old(rows)[k := r.value])
      ensures auth.Authenticated? && r == Err(ItemNotFound) ==> forall k :: k in old(rows) ==> old(rows)[k].id != id
      ensures auth.Authenticated? ==>
        forall k :: k in old(rows) && old(rows)[k].id == id && !MayActOn(auth.user, k.branchId) ==>
          r == Err(ForbiddenUpdate)
      ensures auth.Authenticated? ==>
        forall k :: k in old(rows) && old(rows)[k].id == id && MayActOn(auth.user, k.branchId) ==>
          r == Ok(Overwrite(old(rows)[k], data, now)) && rows == old(rows)[k := r.value]
    {
      var who := Authenticate(auth);
      if who.Err? {
        return Err(who.error);
      }
      if !exists k :: k in rows && rows[k].id == id {
        return Err(ItemNotFound);
      }
      var k :| k in rows && rows[k].id == id;
      if !MayActOn(who.value, k.branchId) {
        return Err(ForbiddenUpdate);
      }
      var row := Overwrite(rows[k], data, now);
      rows := rows[k := row];
      r := Ok(row);
    }

    /** `getInventoryMovements`: a product's movements, newest first; a
        SUPER_ADMIN sees them across all branches, anyone else only those of
        the branch asked for, which must be their own. */
    method GetMovements(auth: Auth, productId: string, branchId: string) returns (r: Result<seq<Movement>, Error>)
      ensures Authenticate(auth).Err? ==> r == Err(Authenticate(auth).error)
      ensures auth.Authenticated? && !MayActOn(auth.user, branchId) ==> r == Err(ForbiddenMovements)
      ensures auth.Authenticated? && MayActOn(auth.user, branchId) ==>
        r == Ok(Reverse(Select(log, productId, if IsSuperAdmin(auth.user) then None else Some(branchId))))
    {
      var who := Authenticate(auth);
      if who.Err? {
        return Err(who.error);
      }
      var u := who.value;
      if !MayActOn(u, branchId) {
        return Err(ForbiddenMovements);
      }
      r := Ok(Reverse(Select(log, productId, if IsSuperAdmin(u) then None else Some(branchId))));
    }

    /** `createInventoryMovement`: log the movement, then bring the row for
        (branch, product) in step with it. */
    method CreateMovement(auth: Auth, data: MovementInput, now: int, newRowId: string) returns (r: Result<Movement, Error>)
      requires Valid() && FreshId(newRowId)
      modifies this
      ensures Valid()
      ensures Authenticate(auth).Err? ==> r == Err(Authenticate(auth).error)
      ensures auth.Authenticated? && !MayActOn(auth.user, data.branchId) ==> r == Err(ForbiddenCreate)
      ensures r.Err? ==> rows == old(rows) && log == old(log)
      ensures auth.Authenticated? && MayActOn(auth.user, data.branchId) ==> r.Ok?
      ensures r.Ok? ==>
        var u := auth.user;
        var k := Key(data.branchId, data.productId);
        && r.value == Movement(data.kind, data.productId, data.quantity, data.branchId,
                               match u.employee case Some(e) => Some(e.id) case None => None,
                               u.id, data.notes, data.reference, now)
        && log == old(log) + [r.value]
        // an existing row: INGRESS adds, any other type subtracts, with no floor
        && (k in old(rows) ==>
              (k in rows &&
               rows[k] == old(rows)[k].(quantity := old(rows)[k].quantity + Delta(data.kind, data.quantity), updatedAt := now)))
        // an absent row: only INGRESS creates it
        && (k !in old(rows) && data.kind == Ingress ==> k in rows && rows[k] == Row(newRowId, data.quantity, 0.0, now))
        && (k !in old(rows) && data.kind != Ingress ==> rows == old(rows))
        // no other row is touched
        && rows.Keys - {k} == old(rows).Keys - {k}
        && (forall k' :: k' in old(rows) && k' != k ==> k' in rows && rows[k'] == old(rows)[k'])
      ensures r.Ok? && old(Reconciled(rows, log)) ==> Reconciled(rows, log)
    {
      var who := Authenticate(auth);
      if who.Err? {
        return Err(who.error);
      }
      var u := who.value;
      if !MayActOn(u, data.branchId) {
        return Err(ForbiddenCreate);
      }
      ghost var rows0, log0 := rows, log;
      var m := Movement(data.kind, data.productId, data.quantity, data.branchId,
                        match u.employee case Some(e) => Some(e.id) case None => None,
                        u.id, data.notes, data.reference, now);
      log := log + [m];
      var k := Key(data.branchId, data.productId);
      if k in rows {
        var newQuantity := rows[k].quantity;
        if data.kind == Ingress {
          newQuantity := newQuantity + data.quantity;
        } else {
          newQuantity := newQuantity - data.quantity;
        }
        rows := rows[k := rows[k].(quantity := newQuantity, updatedAt := now)];
      } else if data.kind == Ingress {
        rows := rows[k := Row(newRowId, data.quantity, 0.0, now)];
      }
      ReplayStep(rows0, log0, m, now, newRowId);
      r := Ok(m);
    }
  }

  /** One recorder step on values: the table after a movement is applied. */
  function StockAfter(rows: map<Key, Row>, m: Movement, now: int, newRowId: string): (r: map<Key, Row>)
    ensures var k := KeyOf(m);
      && (k in rows ==> k in r && r[k].id == rows[k].id && r[k].minStock == rows[k].minStock &&
                        r[k].quantity - rows[k].quantity == Delta(m.kind, m.quantity))
      && (k !in rows ==> (k in r <==> m.kind == Ingress))
      && (k !in rows && k in r ==> r[k] == Row(newRowId, m.quantity, 0.0, now))
      && (forall k' :: k' != k ==> (k' in r <==> k' in rows) && (k' in r ==> r[k'] == rows[k']))
  {
    var k := KeyOf(m);
    if k in rows then rows[k := rows[k].(quantity := rows[k].quantity + Delta(m.kind, m.quantity), updatedAt := now)]
    else if m.kind == Ingress then rows[k := Row(newRowId, m.quantity, 0.0, now)]
    else rows
  }

  /** Applying a movement to a reconciled table and appending it to the log
      keeps them reconciled. */
  lemma ReplayStep(rows: map<Key, Row>, log: seq<Movement>, m: Movement, now: int, newRowId: string)
    ensures Reconciled(rows, log) ==> Reconciled(StockAfter(rows, m, now, newRowId), log + [m])
  {
    if Reconciled(rows, log) {
      var rows' := StockAfter(rows, m, now, newRowId);
      var log' := log + [m];
      assert log'[..|log'| - 1] == log;
      forall k ensures (k in rows' <==> Tracked(log', k).Some?) &&
                       (k in rows' ==> rows'[k].quantity == Tracked(log', k).value)
      {
        assert (k in rows <==> Tracked(log, k).Some?) &&
               (k in rows ==> rows[k].quantity == Tracked(log, k).value);
      }
    }
  }
}
