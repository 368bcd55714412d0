// The order of strings that sorting keys and comparing dates rest on.
module TextOrder {
  predicate LexLe(a: string, b: string) {
    a == "" || (b != "" && (a[0] < b[0] || (a[0] == b[0] && LexLe(a[1..], b[1..]))))
  }

  lemma {:induction false} LexTotal(a: string, b: string)
    ensures LexLe(a, b) || LexLe(b, a)
    ensures a == b ==> LexLe(a, b)
  {
    if a != "" && b != "" {
      LexTotal(a[1..], b[1..]);
    }
  }

  lemma {:induction false} LexAntisymmetric(a: string, b: string)
    requires LexLe(a, b) && LexLe(b, a)
    ensures a == b
  {
    if a != "" && b != "" {
      LexAntisymmetric(a[1..], b[1..]);
      assert a == [a[0]] + a[1..] && b == [b[0]] + b[1..];
    }
  }

  lemma {:induction false} LexTransitive(a: string, b: string, c: string)
    requires LexLe(a, b) && LexLe(b, c)
    ensures LexLe(a, c)
  {
    if a != "" && a[0] == b[0] && b[0] == c[0] {
      LexTransitive(a[1..], b[1..], c[1..]);
    }
  }

  lemma {:induction false} LeastKey(keys: set<string>) returns (k: string)
    requires keys != {}
    ensures k in keys && forall o :: o in keys ==> LexLe(k, o)
  {
    var some :| some in keys;
    var rest := keys - {some};
    if rest == {} {
      k := some;
      LexTotal(some, some);
      assert forall o :: o in keys ==> o == some by { assert keys == rest + {some}; }
    } else {
      var least := LeastKey(rest);
      LexTotal(some, least);
      LexTotal(some, some);
      LexTotal(least, least);
      k := if LexLe(some, least) then some else least;
      forall o | o in keys
        ensures LexLe(k, o)
      {
        if o != some {
          assert o in rest;
          if k == some {
            LexTransitive(some, least, o);
          }
        }
      }
    }
  }

  lemma LeastKeyIsUnique(keys: set<string>)
    requires keys != {}
    ensures exists k :: k in keys && forall o :: o in keys ==> LexLe(k, o)
    ensures forall k, l | k in keys && l in keys && (forall o :: o in keys ==> LexLe(k, o))
                          && (forall o :: o in keys ==> LexLe(l, o)) :: k == l
  {
    var least := LeastKey(keys);
    forall k, l | k in keys && l in keys && (forall o :: o in keys ==> LexLe(k, o))
                  && (forall o :: o in keys ==> LexLe(l, o))
      ensures k == l
    {
      LexAntisymmetric(k, l);
    }
  }

  predicate Ascending(s: seq<string>) {
    forall i, j :: 0 <= i < j < |s| ==> LexLe(s[i], s[j]) && s[i] != s[j]
  }

  // keys.toSorted()
  function SortedKeys(keys: set<string>): (sorted: seq<string>)
    ensures Ascending(sorted)
    ensures forall k :: k in sorted <==> k in keys
  {
    if keys == {} then []
    else
      LeastKeyIsUnique(keys);
      var least :| least in keys && forall o :: o in keys ==> LexLe(least, o);
      [least] + SortedKeys(keys - {least})
  }

  // a >= b ? a : b
  function Later(a: string, b: string): string {
    if LexLe(b, a) then a else b
  }

  lemma LaterIsTheMaximum(a: string, b: string, c: string)
    ensures Later(a, b) == Later(b, a)
    ensures Later(a, Later(b, c)) == Later(Later(a, b), c)
    ensures Later(a, a) == a && LexLe(a, Later(a, b)) && LexLe(b, Later(a, b))
  {
    LexTotal(a, b);
    LexTotal(b, c);
    LexTotal(a, c);
    LexTotal(a, a);
    LexTotal(b, b);
    if LexLe(a, b) && LexLe(b, a) { LexAntisymmetric(a, b); }
    if LexLe(a, c) && LexLe(c, a) { LexAntisymmetric(a, c); }
    if LexLe(b, c) && LexLe(c, b) { LexAntisymmetric(b, c); }
    if LexLe(a, b) && LexLe(b, c) { LexTransitive(a, b, c); }
    if LexLe(c, b) && LexLe(b, a) { LexTransitive(c, b, a); }
    if LexLe(b, c) && LexLe(c, a) { LexTransitive(b, c, a); }
    if LexLe(a, c) && LexLe(c, b) { LexTransitive(a, c, b); }
  }
}
