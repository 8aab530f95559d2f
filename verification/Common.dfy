/** Value-carrying results shared by every module. */
module Common {

  datatype Option<+T> = None | Some(value: T) {
    predicate IsFailure() {
      None?
    }

    function PropagateFailure<U>(): Option<U>
      requires None?
    {
      None
    }

    function Extract(): T
      requires Some?
    {
      value
    }

    function GetOr(default: T): T {
      if Some? then value else default
    }
  }

  datatype Result<+T, +E> = Ok(value: T) | Err(error: E)

  function Optional<T>(present: bool, x: T): seq<T> {
    if present then [x] else []
  }

  /** Like strings.Join. */
  function JoinTexts(parts: seq<string>, sep: string): string {
    if parts == [] then ""
    else if |parts| == 1 then parts[0]
    else parts[0] + sep + JoinTexts(parts[1..], sep)
  }

  lemma {:induction false} JoinAppend(a: seq<string>, b: seq<string>, sep: string)
    requires a != [] && b != []
    ensures JoinTexts(a + b, sep) == JoinTexts(a, sep) + (sep + JoinTexts(b, sep))
  {
    if |a| == 1 {
      assert (a + b)[1..] == b;
      Regroup3(a[0], sep, JoinTexts(b, sep));
    } else {
      assert (a + b)[1..] == a[1..] + b;
      JoinAppend(a[1..], b, sep);
      Regroup3(a[0] + sep, JoinTexts(a[1..], sep), sep + JoinTexts(b, sep));
    }
  }

  lemma JoinTwo(a: string, b: string, sep: string)
    ensures JoinTexts([a, b], sep) == a + sep + b
  {
    assert [a, b][1..] == [b];
  }

  // Regrouping, stated away from the functions whose results are regrouped.

  lemma Tail<T>(x: T, s: seq<T>)
    ensures ([x] + s)[1..] == s
  {
  }

  lemma Regroup3<T>(a: seq<T>, b: seq<T>, c: seq<T>)
    ensures a + b + c == a + (b + c)
  {
  }

  lemma Regroup4<T>(a: seq<T>, b: seq<T>, c: seq<T>, d: seq<T>)
    ensures a + b + c + d == a + (b + (c + d))
    ensures (a + b) + (c + d) == a + (b + (c + d))
    ensures a + (b + c + d) == a + (b + (c + d))
  {
  }

  lemma Regroup5<T>(a: seq<T>, b: seq<T>, c: seq<T>, d: seq<T>, e: seq<T>)
    ensures a + b + (c + d + e) == (a + b + c) + d + e
  {
  }
}
