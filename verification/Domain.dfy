/** Outcome types shared by every component, and the decimal text of a natural number. */
module Domain {

  // The sentinel a Go error wraps, which is what a caller can act on. Anything
  // that wraps no sentinel is Internal.
  datatype Error = Invalid | NotFound | AlreadyExists | Conflict | ApprovalRequired | VenueOrderManaged | NotImplemented
                 | Internal

  datatype Option<+T> = None | Some(value: T)

  datatype Result<+T> = Ok(value: T) | Err(error: Error) {
    function GetOr(default: T): T {
      match this
      case Ok(value) => value
      case Err(_) => default
    }
  }

  const DIGITS := "0123456789"

  predicate IsDigit(c: char) {
    '0' <= c <= '9'
  }

  /** strconv.FormatUint in base ten. */
  function DecimalText(n: nat): (s: string)
    ensures s != []
  {
    if n < 10 then [DIGITS[n]] else DecimalText(n / 10) + [DIGITS[n % 10]]
  }

  /** Distinct numbers have distinct texts, so a text can key a map in place of the number. */
  lemma {:induction false} DecimalTextInjective(m: nat, n: nat)
    requires DecimalText(m) == DecimalText(n)
    ensures m == n
  {
    var s, t := DecimalText(m), DecimalText(n);
    assert s[|s| - 1] == t[|t| - 1];
    if m >= 10 && n >= 10 {
      assert s[..|s| - 1] == DecimalText(m / 10);
      assert t[..|t| - 1] == DecimalText(n / 10);
      DecimalTextInjective(m / 10, n / 10);
      assert m % 10 == n % 10;
    }
  }
}
