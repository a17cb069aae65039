/** `URLSearchParams`, as the dashboard pages use it: a list of name/value
    pairs read with `get` and built with `set` on a fresh object. The names
    are a type parameter: the pages only ever name a fixed set of parameters,
    which each page lists as a datatype rendered to its string when the
    query is written out. */
module UrlParams {
  import opened Wrappers

  type Query<K> = seq<(K, string)>

  /** `params.get(name)`: the value of the first pair with that name, or `null`. */
  function Param<K(==)>(q: Query<K>, name: K): (v: Option<string>)
    ensures v.Some? ==> (name, v.value) in q
  {
    if q == [] then None
    else if q[0].0 == name then Some(q[0].1)
    else Param(q[1..], name)
  }

  /** `get` finds nothing exactly when no pair has the name, and otherwise
      the value of the first pair that has it. */
  lemma {:induction false} ParamFirst<K>(q: Query<K>, name: K)
    ensures Param(q, name).None? <==> forall i :: 0 <= i < |q| ==> q[i].0 != name
    ensures Param(q, name).Some? ==>
              exists i :: 0 <= i < |q| && q[i] == (name, Param(q, name).value)
                          && forall j :: 0 <= j < i ==> q[j].0 != name
  {
    if q != [] && q[0].0 != name {
      ParamFirst(q[1..], name);
      if Param(q, name).Some? {
        var i :| 0 <= i < |q| - 1 && q[1..][i] == (name, Param(q, name).value)
                 && forall j :: 0 <= j < i ==> q[1..][j].0 != name;
        assert q[i + 1] == (name, Param(q, name).value);
        assert forall j :: 0 <= j < i + 1 ==> q[j].0 != name by {
          forall j | 0 <= j < i + 1 ensures q[j].0 != name {
            if j > 0 { assert q[j] == q[1..][j - 1]; }
          }
        }
      } else {
        forall i | 0 <= i < |q| ensures q[i].0 != name {
          if i > 0 { assert q[i] == q[1..][i - 1]; }
        }
      }
    } else if q != [] {
      assert q[0] == (name, Param(q, name).value);
    }
  }

  /** The pairs without any named `name`. */
  function Without<K(==,!new)>(q: Query<K>, name: K): (r: Query<K>)
    ensures forall i :: 0 <= i < |r| ==> r[i].0 != name
    ensures forall n: K :: n != name ==> Param(r, n) == Param(q, n)
  {
    if q == [] then []
    else if q[0].0 == name then Without(q[1..], name)
    else [q[0]] + Without(q[1..], name)
  }

  /** `params.set(name, value)`: the first pair with that name takes the value
      and the others go; with none, the pair is appended. */
  function SetParam<K(==,!new)>(q: Query<K>, name: K, value: string): (r: Query<K>)
    ensures Param(r, name) == Some(value)
    ensures forall n: K :: n != name ==> Param(r, n) == Param(q, n)
    ensures Param(q, name).None? ==> r == q + [(name, value)]
  {
    if q == [] then [(name, value)]
    else if q[0].0 == name then [(name, value)] + Without(q[1..], name)
    else [q[0]] + SetParam(q[1..], name, value)
  }

  /** `if (cond) params.set(name, value)`. */
  function SetWhen<K(==,!new)>(q: Query<K>, cond: bool, name: K, value: string): (r: Query<K>)
    ensures Param(r, name) == if cond then Some(value) else Param(q, name)
    ensures forall n: K :: n != name ==> Param(r, n) == Param(q, n)
    ensures !cond ==> r == q
  {
    if cond then SetParam(q, name, value) else q
  }

  /** `params.toString()` for names and values that need no percent-encoding. */
  function QueryString<K>(q: Query<K>, render: K -> string): (s: string)
    ensures q == [] <==> s == ""
  {
    if q == [] then ""
    else if |q| == 1 then render(q[0].0) + "=" + q[0].1
    else QueryString(q[..|q| - 1], render) + "&" + render(q[|q| - 1].0) + "=" + q[|q| - 1].1
  }
}
