/** The closed enumerations, the Bearer prefix and the paging limits shared by the core. */
module AppConstants {

  /** The regions a session may be created in. */
  const VALID_REGIONS: seq<string> := ["eu-central", "us-east", "us-west", "ap-southeast"]

  /** The status names, in their declared order. */
  const VALID_STATUSES: seq<string> := ["pending", "active", "completed", "failed"]

  /** The prefix the authorization header's value must start with. */
  const BEARER_PREFIX: string := "Bearer "

  /** Bounds that `validateLimit` enforces. */
  const MIN_LIMIT: nat := 1
  const MAX_LIMIT: nat := 100

  /**
   * Defaults used when a page size or offset is absent (or zero, in the
   * store). Their values are configuration the model does not fix.
   */
  const DEFAULT_LIMIT: nat
  const DEFAULT_OFFSET: nat

  /** A session status, the type the status names narrow to. */
  datatype Status = Pending | Active | Completed | Failed
  {
    /** The wire name of the status. */
    function Name(): (n: string)
      ensures n in VALID_STATUSES
    {
      match this
      case Pending => "pending"
      case Active => "active"
      case Completed => "completed"
      case Failed => "failed"
    }
  }

  /** The status a valid status name denotes. */
  function StatusNamed(name: string): (st: Status)
    requires name in VALID_STATUSES
    ensures st.Name() == name
  {
    if name == "pending" then Pending
    else if name == "active" then Active
    else if name == "completed" then Completed
    else Failed
  }

  /** Names and statuses are in one-to-one correspondence. */
  lemma StatusNameInjective(a: Status, b: Status)
    ensures a.Name() == b.Name() ==> a == b
  {
  }
}
