/**
 * The uuid generator (utils/uuid.js is not part of this model) as a fresh-id oracle:
 * the n-th id handed out is "uuid-<n>", so no id is ever handed out twice.
 */
module Ids {

  function DigitChar(d: nat): char
    requires d < 10
  {
    "0123456789"[d]
  }

  /** The decimal numeral of n. */
  function Numeral(n: nat): (r: string)
    ensures 1 <= |r|
    ensures n < 10 <==> |r| == 1
    ensures r[|r| - 1] == DigitChar(n % 10)
    decreases n
  {
    if n < 10 then [DigitChar(n)] else Numeral(n / 10) + [DigitChar(n % 10)]
  }

  lemma {:induction false} NumeralInjective(m: nat, n: nat)
    requires Numeral(m) == Numeral(n)
    ensures m == n
    decreases m
  {
    var a, b := Numeral(m), Numeral(n);
    assert DigitChar(m % 10) == DigitChar(n % 10);
    assert m % 10 == n % 10 by { DigitCharInjective(m % 10, n % 10); }
    if m >= 10 {
      assert n >= 10;
      assert Numeral(m / 10) == a[..|a| - 1];
      assert Numeral(n / 10) == b[..|b| - 1];
      NumeralInjective(m / 10, n / 10);
    }
  }

  lemma DigitCharInjective(d: nat, e: nat)
    requires d < 10 && e < 10 && DigitChar(d) == DigitChar(e)
    ensures d == e
  {
  }

  function Uuid(n: nat): (r: string)
    ensures |r| > 5 && r[..5] == "uuid-"
  {
    "uuid-" + Numeral(n)
  }

  lemma UuidInjective(m: nat, n: nat)
    requires Uuid(m) == Uuid(n)
    ensures m == n
  {
    assert Numeral(m) == Uuid(m)[5..];
    assert Numeral(n) == Uuid(n)[5..];
    NumeralInjective(m, n);
  }

  /** The ids handed out before the counter reached n. */
  ghost function Issued(n: nat): set<string> {
    set k | 0 <= k < n :: Uuid(k)
  }

  lemma IssuedGrows(m: nat, n: nat)
    requires m <= n
    ensures Issued(m) <= Issued(n)
  {
  }

  class IdSource {
    /** How many ids have been handed out. */
    var counter: nat

    constructor ()
      ensures counter == 0
    {
      counter := 0;
    }

    /** uuidv4(): an id never handed out before. */
    method Next() returns (id: string)
      modifies this
      ensures counter == old(counter) + 1
      ensures id == Uuid(old(counter))
      ensures id !in Issued(old(counter)) && Issued(counter) == Issued(old(counter)) + {id}
    {
      id := Uuid(counter);
      forall k | 0 <= k < counter
        ensures Uuid(k) != id
      {
        if Uuid(k) == id {
          UuidInjective(k, counter);
        }
      }
      counter := counter + 1;
    }
  }
}
