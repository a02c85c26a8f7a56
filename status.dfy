/**
 * The three-state status of the regulator and the rule that re-derives it
 * after every change to the pending record.
 */
module StatusMachine {

  import opened Wrappers

  datatype Status = Safe | Pending | Armed

  /**
   * The status shown is a function of the store unless the regulator is
   * armed: PENDING exactly when dirty, SAFE exactly when clean.
   */
  predicate Consistent(status: Status, dirty: bool)
  {
    status == Armed || (status == Pending <==> dirty)
  }

  /**
   * The status change that the readout refresh requests after an edit, or
   * None when it leaves the status alone. A dirty store asks for PENDING
   * unless armed (even when already pending, which restarts the ripple);
   * a clean store drops PENDING back to SAFE; ARMED is never touched.
   */
  function Reconcile(current: Status, dirty: bool): (r: Option<Status>)
    ensures r.Some? ==> r.value != Armed
    ensures r.None? <==> current == Armed || (current == Safe && !dirty)
    ensures r.Some? ==> (r.value == Pending <==> dirty)
  {
    if dirty then
      if current != Armed then Some(Pending) else None
    else
      match current
      case Pending => Some(Safe)
      case _ => None
  }

  /** The status after an edit of the pending record. */
  function AfterEdit(current: Status, dirty: bool): (r: Status)
    ensures r == Armed <==> current == Armed
    ensures current != Armed ==> (r == Pending <==> dirty)
    ensures Consistent(r, dirty)
  {
    match Reconcile(current, dirty)
    case Some(s) => s
    case None => current
  }
}
