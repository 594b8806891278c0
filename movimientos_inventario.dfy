/** The ingredient-stock movement endpoint of the per-branch schema
    (src/pages/api/movimientos-inventario/index.ts): request guards, then one
    transaction that upserts the (sucursal, ingrediente) stock row and appends
    the movimiento. */
module MovimientosInventario {
  import opened Prelude

  datatype Tipo = Entrada | Salida

  /** Composite key of `inventarioSucursal`. */
  datatype Pair = Pair(idSucursal: int, idIngrediente: int)

  datatype StockRow = StockRow(stockActual: real, stockMinimo: real)

  datatype Movimiento = Movimiento(idSucursal: int, idIngrediente: int, tipo: Tipo, cantidad: real, idUsuario: string)

  /** The parts of the HTTP request the handler reads. A body field that was
      not sent is `None`. */
  datatype Request = Request(
    sessionUserId: Option<string>,
    httpMethod: string,
    idSucursal: Option<int>,
    idIngrediente: Option<int>,
    cantidad: Option<real>,
    tipoMovimiento: Option<string>)

  datatype Response =
    | Status(code: int, message: string)
    | Success(inventario: StockRow, movimiento: Movimiento)

  function Code(r: Response): int
  {
    match r
    case Status(c, _) => c
    case Success(_, _) => 200
  }

  /** A request that passed every guard. */
  datatype Command = Command(pair: Pair, tipo: Tipo, cantidad: real, userId: string)

  const MissingFields := "Faltan datos requeridos: idSucursal, idIngrediente, cantidad, tipoMovimiento."
  const BadTipo := "El tipo de movimiento debe ser 'ENTRADA' o 'SALIDA'."

  /** JavaScript truthiness of the optional body fields: absent, zero and the
      empty string are falsy. */
  predicate TruthyInt(x: Option<int>) { x.Some? && x.value != 0 }
  predicate TruthyReal(x: Option<real>) { x.Some? && x.value != 0.0 }
  predicate TruthyString(x: Option<string>) { x.Some? && x.value != "" }

  /** The guards, in the order the handler applies them. */
  function Check(req: Request): (r: Result<Command, Response>)
    ensures !TruthyString(req.sessionUserId) ==> r == Err(Status(401, "No estás autorizado."))
    ensures TruthyString(req.sessionUserId) && req.httpMethod != "POST" ==>
      r == Err(Status(405, "Method " + req.httpMethod + " Not Allowed"))
    ensures (TruthyString(req.sessionUserId) && req.httpMethod == "POST" &&
             !(TruthyInt(req.idSucursal) && TruthyInt(req.idIngrediente) && TruthyReal(req.cantidad) && TruthyString(req.tipoMovimiento)))
            ==> r == Err(Status(400, MissingFields))
    ensures (TruthyString(req.sessionUserId) && req.httpMethod == "POST" &&
             TruthyInt(req.idSucursal) && TruthyInt(req.idIngrediente) && TruthyReal(req.cantidad) &&
             TruthyString(req.tipoMovimiento) && req.tipoMovimiento.value !in {"ENTRADA", "SALIDA"})
            ==> r == Err(Status(400, BadTipo))
    ensures r.Err? ==> Code(r.error) in {400, 401, 405}
    ensures r.Ok? <==>
      TruthyString(req.sessionUserId) && req.httpMethod == "POST" &&
      TruthyInt(req.idSucursal) && TruthyInt(req.idIngrediente) && TruthyReal(req.cantidad) &&
      req.tipoMovimiento.Some? && req.tipoMovimiento.value in {"ENTRADA", "SALIDA"}
    ensures r.Ok? ==>
      r.value.pair == Pair(req.idSucursal.value, req.idIngrediente.value) &&
      r.value.cantidad == req.cantidad.value && r.value.cantidad != 0.0 &&
      r.value.userId == req.sessionUserId.value &&
      (r.value.tipo == Entrada <==> req.tipoMovimiento.value == "ENTRADA")
  {
    if !TruthyString(req.sessionUserId) then Err(Status(401, "No estás autorizado."))
    else if req.httpMethod != "POST" then Err(Status(405, "Method " + req.httpMethod + " Not Allowed"))
    else if !TruthyInt(req.idSucursal) || !TruthyInt(req.idIngrediente) || !TruthyReal(req.cantidad) || !TruthyString(req.tipoMovimiento) then
      Err(Status(400, MissingFields))
    else if req.tipoMovimiento.value != "ENTRADA" && req.tipoMovimiento.value != "SALIDA" then
      Err(Status(400, BadTipo))
    else
      Ok(Command(Pair(req.idSucursal.value, req.idIngrediente.value),
                 if req.tipoMovimiento.value == "ENTRADA" then Entrada else Salida,
                 req.cantidad.value,
                 req.sessionUserId.value))
  }

  /** Only 0 is a falsy quantity: a negative one passes the guards. */
  lemma NegativeCantidadAccepted()
    ensures var r := Check(Request(Some("7"), "POST", Some(1), Some(2), Some(-5.0), Some("ENTRADA")));
      r.Ok? && r.value.cantidad == -5.0 && r.value.tipo == Entrada
  {
  }

  /** The signed amount a movimiento contributes to its stock row. */
  function Signed(tipo: Tipo, cantidad: real): (d: real)
    ensures tipo == Entrada ==> d == cantidad
    ensures tipo == Salida ==> d == -cantidad
  {
    if tipo == Entrada then cantidad else -cantidad
  }

  function PairOf(m: Movimiento): Pair
  {
    Pair(m.idSucursal, m.idIngrediente)
  }

  /** The upsert: increment or decrement an existing row, or create it with
      the signed amount and a minimum of 0. Nothing stops it going negative. */
  function Upsert(stock: map<Pair, StockRow>, p: Pair, tipo: Tipo, cantidad: real): (r: map<Pair, StockRow>)
    ensures r.Keys == stock.Keys + {p}
    ensures p in stock ==> r[p] == stock[p].(stockActual := stock[p].stockActual + Signed(tipo, cantidad))
    ensures p !in stock ==> r[p] == StockRow(Signed(tipo, cantidad), 0.0)
    ensures forall q :: q in stock && q != p ==> r[q] == stock[q]
  {
    if p in stock then
      stock[p := stock[p].(stockActual := stock[p].stockActual + (if tipo == Entrada then cantidad else -cantidad))]
    else
      stock[p := StockRow(if tipo == Entrada then cantidad else -cantidad, 0.0)]
  }

  /** The stock table the endpoint builds from an empty one by handling the
      movimientos of `log` in order. */
  function Replay(log: seq<Movimiento>): (r: map<Pair, StockRow>)
    ensures forall p :: p in r ==> r[p].stockMinimo == 0.0
  {
    if log == [] then map[]
    else
      var m := log[|log| - 1];
      Upsert(Replay(log[..|log| - 1]), PairOf(m), m.tipo, m.cantidad)
  }

  /** Signed sum of the movimientos of `log` on `p`. */
  function Sum(log: seq<Movimiento>, p: Pair): real
  {
    if log == [] then 0.0
    else
      var m := log[|log| - 1];
      Sum(log[..|log| - 1], p) + (if PairOf(m) == p then Signed(m.tipo, m.cantidad) else 0.0)
  }

  predicate Touched(log: seq<Movimiento>, p: Pair)
  {
    exists i :: 0 <= i < |log| && PairOf(log[i]) == p
  }

  lemma TouchedAppend(log: seq<Movimiento>, m: Movimiento, p: Pair)
    ensures Touched(log + [m], p) <==> Touched(log, p) || PairOf(m) == p
  {
    var log' := log + [m];
    assert forall i :: 0 <= i < |log| ==> log'[i] == log[i];
    assert log'[|log|] == m;
  }

  /** Reconciliation: a row exists exactly for the pairs that have a logged
      movimiento, its stock is the signed sum of those movimientos, and its
      minimum is the 0 it was created with. */
  lemma {:induction false} ReplayIsSignedSum(log: seq<Movimiento>, p: Pair)
    ensures p in Replay(log) <==> Touched(log, p)
    ensures p in Replay(log) ==> Replay(log)[p] == StockRow(Sum(log, p), 0.0)
  {
    if log != [] {
      var n := |log| - 1;
      var init, m := log[..n], log[n];
      assert log == init + [m];
      ReplayIsSignedSum(init, p);
      TouchedAppend(init, m, p);
      if PairOf(m) == p && !Touched(init, p) {
        SumUntouched(init, p);
      }
    }
  }

  lemma {:induction false} SumUntouched(log: seq<Movimiento>, p: Pair)
    requires !Touched(log, p)
    ensures Sum(log, p) == 0.0
  {
    if log != [] {
      var n := |log| - 1;
      assert log == log[..n] + [log[n]];
      TouchedAppend(log[..n], log[n], p);
      SumUntouched(log[..n], p);
    }
  }

  /** Stock may go negative: a SALIDA on a pair with no row creates it below zero. */
  lemma SalidaFirstGoesNegative()
    ensures var log := [Movimiento(1, 2, Salida, 4.0, "7")];
      Replay(log) == map[Pair(1, 2) := StockRow(-4.0, 0.0)]
  {
    var log := [Movimiento(1, 2, Salida, 4.0, "7")];
    assert log[..0] == [];
  }

  /** The two tables the endpoint writes. */
  class InventarioDb {
    var stock: map<Pair, StockRow>
    var movimientos: seq<Movimiento>

    /** The stock table is the replay of the movimiento log. */
    ghost predicate Valid()
      reads this
    {
      stock == Replay(movimientos)
    }

    constructor ()
      ensures Valid() && stock == map[] && movimientos == []
    {
      stock := map[];
      movimientos := [];
    }

    /** The POST handler. `txFails` stands for any failure inside the
        transaction, which rolls back both writes and answers 500. */
    method Handle(req: Request, txFails: bool) returns (res: Response)
      requires Valid()
      modifies this
      ensures Valid()
      ensures Check(req).Err? ==> res == Check(req).error && stock == old(stock) && movimientos == old(movimientos)
      ensures Check(req).Ok? && txFails ==>
        res == Status(500, "Error interno del servidor.") && stock == old(stock) && movimientos == old(movimientos)
      ensures Check(req).Ok? && !txFails ==>
        var c := Check(req).value;
        var mov := Movimiento(c.pair.idSucursal, c.pair.idIngrediente, c.tipo, c.cantidad, c.userId);
        && movimientos == old(movimientos) + [mov]
        && stock == Upsert(old(stock), c.pair, c.tipo, c.cantidad)
        && res == Success(stock[c.pair], mov)
      ensures Code(res) == 200 <==> stock != old(stock) || movimientos != old(movimientos)
    {
      var checked := Check(req);
      if checked.Err? {
        return checked.error;
      }
      if txFails {
        return Status(500, "Error interno del servidor.");
      }
      var c := checked.value;
      var p := c.pair;
      // 1. upsert the stock row
      if p in stock {
        var delta := if c.tipo == Entrada then c.cantidad else -c.cantidad;
        stock := stock[p := stock[p].(stockActual := stock[p].stockActual + delta)];
      } else {
        stock := stock[p := StockRow(if c.tipo == Entrada then c.cantidad else -c.cantidad, 0.0)];
      }
      // 2. append the movimiento
      var mov := Movimiento(p.idSucursal, p.idIngrediente, c.tipo, c.cantidad, c.userId);
      ghost var log0 := movimientos;
      movimientos := movimientos + [mov];
      assert movimientos[..|movimientos| - 1] == log0;
      res := Success(stock[p], mov);
    }
  }
}
