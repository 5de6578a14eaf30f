/** Values shared by every controller: identifiers, decoded token claims,
    the response envelope and the shapes a request field can take. */
module Common {

  /** Row identifiers (UUIDs in the database) and timestamps are abstract. */
  type Id = nat
  type Time = int

  datatype Option<T> = None | Some(value: T) {
    function GetOr(default: T): T {
      if Some? then value else default
    }
  }

  /** A JSON body field compared against `undefined`: absent, an explicit
      `null`, or a value. */
  datatype Field<T> = Undefined | Null | Value(value: T) {
    /** What the column receives when the field is written. */
    function Stored(): Option<T> {
      if Value? then Some(value) else None
    }
  }

  /** The decoded JWT payload `(userId, tenantId, role)`; the tenant is
      null for a super admin. */
  datatype Claims = Claims(userId: Id, tenantId: Option<Id>, role: string)

  const SuperAdmin: string := "super_admin"
  const TenantAdmin: string := "tenant_admin"
  const Member: string := "user"

  /** The `{ success, message, data? }` envelope with its HTTP status. */
  datatype Reply<T> =
    | Fail(status: nat, message: string)
    | Ok(status: nat, message: string, data: Option<T>)

  const ServerError: string := "Server Error"

  /** The value of a truthiness-tested string field: `x || fallback`. */
  function OrElse(s: string, fallback: string): (r: string)
    ensures r != "" <== fallback != ""
    ensures s != "" ==> r == s
  {
    if s != "" then s else fallback
  }

  /** The `column = $idx` entries of an `UPDATE ... SET`, applied to the row
      in the order they were pushed. */
  function ApplyAll<R, S>(row: R, sets: seq<S>, apply: (R, S) -> R): R
    decreases |sets|
  {
    if sets == [] then row else ApplyAll(apply(row, sets[0]), sets[1..], apply)
  }

  /** The entries of two lists pushed one after the other apply as the
      first list and then the second. */
  lemma {:induction false} ApplyAllAppend<R, S>(row: R, a: seq<S>, b: seq<S>, apply: (R, S) -> R)
    ensures ApplyAll(row, a + b, apply) == ApplyAll(ApplyAll(row, a, apply), b, apply)
    decreases |a|
  {
    if a == [] {
      assert a + b == b;
    } else {
      assert (a + b)[0] == a[0] && (a + b)[1..] == a[1..] + b;
      ApplyAllAppend(apply(row, a[0]), a[1..], b, apply);
    }
  }
}
