/**
 * The role gates (`as_customer`, `as_staff`): the signed-in session records a
 * role, and each customer or staff page first checks it.
 */
module Session {
  /** The session store: keys to string values; "role" is set at login. */
  type Store = map<string, string>

  /**
   * `session.get("role")`. Python gives None when no role is recorded; the model
   * gives "", which equals neither role name just as None does.
   */
  function Role(s: Store): string {
    if "role" in s then s["role"] else ""
  }

  /** `as_customer()`: the recorded role equals "customer". */
  predicate AsCustomer(s: Store): (ok: bool)
    ensures ok <==> "role" in s && s["role"] == "customer"
  {
    Role(s) == "customer"
  }

  /** `as_staff()`: the recorded role equals "staff". */
  predicate AsStaff(s: Store): (ok: bool)
    ensures ok <==> "role" in s && s["role"] == "staff"
  {
    Role(s) == "staff"
  }

  /** No session passes both gates, and a session without a role passes neither. */
  lemma GatesExclusive(s: Store)
    ensures !(AsCustomer(s) && AsStaff(s))
    ensures "role" !in s ==> !AsCustomer(s) && !AsStaff(s)
  {
  }

  /** Only the role entry matters: changing any other entry changes neither gate. */
  lemma GatesReadOnlyRole(s: Store, k: string, v: string)
    requires k != "role"
    ensures AsCustomer(s[k := v]) == AsCustomer(s)
    ensures AsStaff(s[k := v]) == AsStaff(s)
  {
  }
}
