/**
 * Filling a Lua table from a list of key/value pairs, one `lua_settable` or
 * `lua_setfield` at a time: a later pair with the same key overwrites the
 * value stored by an earlier one.
 */
module LuaTable {

  /** The table `t` after the pairs `ps` have been assigned into it, in list order. */
  function Assign(t: map<string, string>, ps: seq<(string, string)>): map<string, string>
    decreases |ps|
  {
    if ps == [] then t
    else Assign(t, ps[..|ps| - 1])[ps[|ps| - 1].0 := ps[|ps| - 1].1]
  }

  /** A key is present afterwards exactly when it was present before or some pair assigns it. */
  lemma {:induction false} AssignKeys(t: map<string, string>, ps: seq<(string, string)>, k: string)
    ensures k in Assign(t, ps) <==> k in t || exists i :: 0 <= i < |ps| && ps[i].0 == k
    decreases |ps|
  {
    if ps != [] {
      var init := ps[..|ps| - 1];
      AssignKeys(t, init, k);
      if exists i :: 0 <= i < |init| && init[i].0 == k {
        var i :| 0 <= i < |init| && init[i].0 == k;
        assert ps[i].0 == k;
      }
      if exists i :: 0 <= i < |ps| && ps[i].0 == k {
        var i :| 0 <= i < |ps| && ps[i].0 == k;
        if i < |init| { assert init[i].0 == k; }
      }
    }
  }

  /** The value stored under a key is the one of the LAST pair that assigns that key. */
  lemma {:induction false} AssignLastWins(t: map<string, string>, ps: seq<(string, string)>, i: nat)
    requires i < |ps|
    requires forall j :: i < j < |ps| ==> ps[j].0 != ps[i].0
    ensures ps[i].0 in Assign(t, ps) && Assign(t, ps)[ps[i].0] == ps[i].1
    decreases |ps|
  {
    if i < |ps| - 1 {
      var init := ps[..|ps| - 1];
      assert forall j :: i < j < |init| ==> init[j].0 == ps[j].0;
      AssignLastWins(t, init, i);
    }
  }

  /** A key that no pair assigns keeps the value it had before. */
  lemma {:induction false} AssignUntouched(t: map<string, string>, ps: seq<(string, string)>, k: string)
    requires k in t
    requires forall j :: 0 <= j < |ps| ==> ps[j].0 != k
    ensures k in Assign(t, ps) && Assign(t, ps)[k] == t[k]
    decreases |ps|
  {
    if ps != [] {
      AssignUntouched(t, ps[..|ps| - 1], k);
    }
  }
}
