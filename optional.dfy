/** The JavaScript `null`/`undefined` of an optional value. */
module Optional {

  datatype Option<+T> = None | Some(value: T) {

    /** `x ?? d`: the value, or `d` when it is null or undefined. */
    function GetOr(d: T): T {
      match this
      case Some(v) => v
      case None => d
    }
  }

  /** JavaScript's `!!x` for a boolean that may be absent: absent is falsy. */
  predicate Truthy(b: Option<bool>) {
    b == Some(true)
  }

  /** On a present flag, `!!` is the identity. */
  lemma TruthyPresent(b: Option<bool>)
    requires b.Some?
    ensures Some(Truthy(b)) == b
  {
    if b.value {
      assert b == Some(true);
    } else {
      assert b == Some(false);
    }
  }
}
