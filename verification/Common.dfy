/** Small types shared by every part of the model. */
module Common {

  datatype Option<+T> = None | Some(value: T)

  function Last<T>(s: seq<T>): T
    requires s != []
  {
    s[|s| - 1]
  }

  /** Some element of a set. */
  method Pick<T(==)>(s: set<T>) returns (x: T)
    requires s != {}
    ensures x in s
  {
    x :| x in s;
  }

  function NamesOf(names: seq<string>): set<string> {
    set d | d in names
  }

  lemma TakenNames(names: seq<string>, k: nat)
    requires k < |names|
    ensures NamesOf(names[..k + 1]) == NamesOf(names[..k]) + {names[k]}
  {
    assert names[..k + 1] == names[..k] + [names[k]];
  }

  predicate NoRepeats(s: seq<string>) {
    forall i, j | 0 <= i < j < |s| :: s[i] != s[j]
  }

  lemma OneMoreName(s: seq<string>, id: string)
    ensures NamesOf(s + [id]) == NamesOf(s) + {id}
    ensures NoRepeats(s) && id !in s ==> NoRepeats(s + [id]) && id !in NamesOf(s)
  {
    assert (s + [id])[|s|] == id;
    forall d | d in s ensures d in s + [id] {
      var k :| 0 <= k < |s| && s[k] == d;
      assert (s + [id])[k] == d;
    }
  }

  /** Positions in a list, in order. */
  ghost predicate Positions(at: seq<nat>, n: nat) {
    (forall j | 0 <= j < |at| :: at[j] < n) && forall i, j | 0 <= i < j < |at| :: at[i] < at[j]
  }

  lemma PositionsNext(at: seq<nat>, n: nat)
    requires Positions(at, n)
    ensures Positions(at, n + 1) && Positions(at + [n], n + 1) && n !in at
  {
  }
}
