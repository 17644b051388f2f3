/**
  The status successor of the status-cycling route (backend/server.js:119-121):
    estados[(estados.indexOf(actual) + 1) % estados.length]
  with estados = ["pendiente", "completada", "cancelada"].
  The current value `actual` comes from the `estado` column and may be a string
  or SQL NULL (JavaScript null); it is modelled as an Option<string>.
 */
module TaskStatus {
  import opened Wrappers

  /** The three statuses, in the order the route cycles through them. */
  const Estados: seq<string> := ["pendiente", "completada", "cancelada"]

  /** The value is one of the three statuses. */
  predicate IsEstado(v: Option<string>) {
    v.Some? && v.value in Estados
  }

  /**
    Array.prototype.indexOf: the first position holding a value strictly equal
    to `v`, or -1 when there is none. A null is strictly equal to no string.
   */
  function IndexOf(xs: seq<string>, v: Option<string>): (i: int)
    ensures -1 <= i < |xs|
    ensures 0 <= i ==> v == Some(xs[i]) && forall j :: 0 <= j < i ==> v != Some(xs[j])
    ensures i == -1 ==> forall j :: 0 <= j < |xs| ==> v != Some(xs[j])
  {
    if xs == [] then -1
    else if v == Some(xs[0]) then 0
    else
      var k := IndexOf(xs[1..], v);
      if k == -1 then -1 else k + 1
  }

  /**
    The successor status. The dividend `indexOf + 1` lies in 0..3, so Dafny's
    Euclidean `%` agrees with JavaScript's truncating `%` here. An unrecognised
    value (including null) has index -1 and therefore maps to the first status.
   */
  function Siguiente(actual: Option<string>): (r: string)
    ensures r in Estados
    ensures !IsEstado(actual) ==> r == Estados[0]
  {
    Estados[(IndexOf(Estados, actual) + 1) % |Estados|]
  }

  /** An independent reference for the status cycle: pending, completed, cancelled. */
  datatype Estado = Pendiente | Completada | Cancelada

  /** The reference cycle order, wrapping from the last status to the first. */
  function Next(e: Estado): Estado {
    match e
    case Pendiente => Completada
    case Completada => Cancelada
    case Cancelada => Pendiente
  }

  /** The text the route stores for a status. */
  function Name(e: Estado): (s: string)
    ensures s in Estados
  {
    match e
    case Pendiente => "pendiente"
    case Completada => "completada"
    case Cancelada => "cancelada"
  }

  /** Reads a column value as a status; None for any other value. */
  function Parse(v: Option<string>): (e: Option<Estado>)
    ensures e.Some? <==> IsEstado(v)
    ensures e.Some? ==> v == Some(Name(e.value))
  {
    if v == Some("pendiente") then Some(Pendiente)
    else if v == Some("completada") then Some(Completada)
    else if v == Some("cancelada") then Some(Cancelada)
    else None
  }

  /** Naming a status and reading it back gives the same status. */
  lemma ParseName(e: Estado)
    ensures Parse(Some(Name(e))) == Some(e)
  {
  }

  /** The reference cycle has period three and no fixed point. */
  lemma NextPeriodThree(e: Estado)
    ensures Next(Next(Next(e))) == e
    ensures Next(e) != e
  {
  }

  /**
    The index arithmetic agrees with the reference cycle on every value:
    a status goes to its successor, anything else goes to "pendiente".
   */
  lemma SiguienteMatchesNext(v: Option<string>)
    ensures Siguiente(v) == Name(match Parse(v) case Some(e) => Next(e) case None => Pendiente)
  {
  }

  /** The three transitions, with the wrap-around from last to first. */
  lemma SiguienteTransitions()
    ensures Siguiente(Some("pendiente")) == "completada"
    ensures Siguiente(Some("completada")) == "cancelada"
    ensures Siguiente(Some("cancelada")) == "pendiente"
  {
    SiguienteMatchesNext(Some("pendiente"));
    SiguienteMatchesNext(Some("completada"));
    SiguienteMatchesNext(Some("cancelada"));
  }

  /** Applying the successor three times to a status gives it back. */
  lemma SiguientePeriodThree(s: string)
    requires s in Estados
    ensures Siguiente(Some(Siguiente(Some(Siguiente(Some(s)))))) == s
  {
    var e := Parse(Some(s)).value;
    SiguienteMatchesNext(Some(s));
    ParseName(Next(e));
    SiguienteMatchesNext(Some(Name(Next(e))));
    ParseName(Next(Next(e)));
    SiguienteMatchesNext(Some(Name(Next(Next(e)))));
    NextPeriodThree(e);
  }

  /** Cycling a status always changes it, and distinct statuses have distinct successors. */
  lemma SiguienteIsPermutation(s: string, t: string)
    requires s in Estados && t in Estados
    ensures Siguiente(Some(s)) != s
    ensures Siguiente(Some(s)) == Siguiente(Some(t)) ==> s == t
  {
    var e, f := Parse(Some(s)).value, Parse(Some(t)).value;
    SiguienteMatchesNext(Some(s));
    SiguienteMatchesNext(Some(t));
    ParseName(Next(e));
    ParseName(Next(f));
    NextPeriodThree(e);
    NextPeriodThree(f);
  }
}
