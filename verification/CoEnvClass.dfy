/** The table as an array that co_set_env_list compacts in place, and the environment calls on top of it. */
module CoEnvClass {
  import opened Basics
  import opened CoEnv

  lemma {:induction false} UniqueLast(s: seq<string>)
    requires s != []
    ensures Unique(s) != [] && Unique(s)[|Unique(s)| - 1] == s[|s| - 1]
    decreases |s|
  {
    if |s| > 1 { UniqueLast(s[..|s| - 1]); }
  }

  lemma UniqueStep(s: seq<string>, i: nat)
    requires 0 < i < |s|
    ensures Unique(s[..i + 1]) == if s[i] == s[i - 1] then Unique(s[..i]) else Unique(s[..i]) + [s[i]]
  {
    assert s[..i + 1][..i] == s[..i];
  }

  /** The name at lq joins those up to lp unless it repeats the last of them. */
  method KeepNew(data: array<string>, lp: nat, lq: nat, ghost s: seq<string>) returns (p: nat)
    requires lp < lq < data.Length && 0 < lq < |s|
    requires data[..lp + 1] == Unique(s[..lq]) && data[lq] == s[lq]
    modifies data
    ensures p <= lq && data[..p + 1] == Unique(s[..lq + 1])
    ensures forall j :: lq < j < data.Length ==> data[j] == old(data[j])
  {
    ghost var u := data[..lp + 1];
    UniqueLast(s[..lq]);
    UniqueStep(s, lq);
    assert data[lp] == u[lp] == s[lq - 1];
    p := lp;
    if data[lp] != data[lq] {
      p := p + 1;
      if lq != p {
        data[p] := data[lq];
      }
      assert data[..p + 1] == u + [s[lq]];
    }
  }

  /** Two pointers: everything up to lp is unique, lq looks at the next name. */
  method Dedupe(data: array<string>, cnt: nat) returns (n: nat)
    requires 1 < cnt <= data.Length
    modifies data
    ensures n <= cnt && data[..n] == Unique(old(data[..cnt]))
  {
    ghost var s := data[..cnt];
    var lp, lq := 0, 1;
    assert data[..1] == Unique(s[..1]);
    for i := 1 to cnt
      invariant 0 <= lp < lq == i && data[..lp + 1] == Unique(s[..lq])
      invariant forall j :: lq <= j < cnt ==> data[j] == s[j]
    {
      lp := KeepNew(data, lp, lq, s);
      lq := lq + 1;
    }
    assert s[..cnt] == s;
    n := lp + 1;
  }

  lemma {:induction false} SortLength(s: seq<string>)
    ensures |Sort(s)| == |s|
  {
    SortSorts(s);
    assert |multiset(Sort(s))| == |multiset(s)|;
  }

  lemma SortShort(s: seq<string>)
    requires |s| <= 1
    ensures Sort(s) == s == Unique(s)
  {
    if |s| == 1 {
      assert s == [s[0]] && s[1..] == [];
    }
  }

  /** The C library's qsort. */
  method QSort(data: array<string>, cnt: nat)
    requires cnt <= data.Length
    modifies data
    ensures data[..cnt] == Sort(old(data[..cnt])) && data[cnt..] == old(data[cnt..])
  {
    var sorted := Sort(data[..cnt]);
    SortLength(data[..cnt]);
    for i := 0 to cnt
      invariant data[..i] == sorted[..i] && data[cnt..] == old(data[cnt..])
    {
      data[i] := sorted[i];
    }
  }

  lemma {:induction false} WantedNext(names: seq<Option<string>>, i: nat)
    requires i < |names|
    ensures Wanted(names[..i + 1]) == Wanted(names[..i]) + Wanted([names[i]])
  {
    if i > 0 {
      WantedNext(names[1..], i - 1);
      assert names[..i + 1][1..] == names[1..][..i] && names[..i][1..] == names[1..][..i - 1];
    } else {
      assert names[..1] == [names[0]];
    }
  }

  /** The C library's bsearch. */
  method BSearch(e: seq<Entry>, n: string) returns (r: Option<nat>)
    requires StrictlySorted(Names(e))
    ensures r == Find(e, n)
  {
    var l, u := 0, |e|;
    while l < u
      invariant 0 <= l <= u <= |e|
      invariant forall i :: 0 <= i < l ==> Less(Names(e)[i], n)
      invariant forall i :: u <= i < |e| ==> Less(n, Names(e)[i])
    {
      var mid := (l + u) / 2;
      assert Names(e)[mid] == e[mid].name;
      if e[mid].name == n {
        FindUnique(e, n, mid);
        return Some(mid);
      }
      LessTrichotomy(n, e[mid].name);
      if Less(n, e[mid].name) {
        forall i | mid <= i < |e| ensures Less(n, Names(e)[i]) {
          if i > mid { LessTransitive(n, Names(e)[mid], Names(e)[i]); }
        }
        u := mid;
      } else {
        forall i | 0 <= i <= mid ensures Less(Names(e)[i], n) {
          if i < mid { LessTransitive(Names(e)[i], Names(e)[mid], n); }
        }
        l := mid + 1;
      }
    }
    forall i | 0 <= i < |e| ensures e[i].name != n {
      assert Names(e)[i] == e[i].name;
      LessTrichotomy(n, n);
    }
    r := None;
  }

  datatype Result = System | Private(value: Option<string>)

  class Environment {
    var data: array?<string>
    var cnt: nat
    var envs: map<nat, seq<Entry>>
    ghost var system: seq<Call>

    ghost predicate Valid()
      reads this
    {
      data != null ==> cnt <= data.Length
    }

    ghost function Abs(): Process
      requires Valid()
      reads this, data
    {
      Process(if data == null then None else Some(data[..cnt]), envs, system)
    }

    constructor ()
      ensures Valid() && Abs() == NEW
    {
      data, cnt, envs, system := null, 0, map[], [];
    }

    /** co_set_env_list; a second call does nothing. */
    method SetEnvList(names: seq<Option<string>>)
      requires Valid()
      modifies this, data
      ensures Valid() && Abs() == Do(old(Abs()), SetList(names))
    {
      if data != null { return; }
      var a := new string[|names|](_ => "");
      var k := Fill(a, names);
      if k > 1 {
        QSort(a, k);
        k := Dedupe(a, k);
      } else {
        SortShort(a[..k]);
      }
      assert a[..k] == Table(names);
      data, cnt := a, k;
    }

    /** The non-empty names, in the order given. */
    static method Fill(a: array<string>, names: seq<Option<string>>) returns (k: nat)
      requires a.Length == |names|
      modifies a
      ensures k <= a.Length && a[..k] == Wanted(names)
    {
      k := 0;
      for i := 0 to |names|
        invariant k <= i && a[..k] == Wanted(names[..i])
      {
        WantedNext(names, i);
        match names[i]
        case None =>
        case Some(s) =>
          if s != "" {
            a[k] := s;
            k := k + 1;
          }
      }
      assert names[..|names|] == names;
    }

    /** pvEnv of the coroutine, which the first call creates. */
    method Prepare(co: nat) returns (vars: seq<Entry>)
      requires Valid() && data != null && Inv(Abs())
      modifies this`envs
      ensures Valid() && vars == Vars(old(Abs()), co) && Names(vars) == data[..cnt]
      ensures Abs() == old(Abs()).(envs := old(envs)[co := vars])
    {
      if co !in envs {
        envs := envs[co := Blank(data[..cnt])];
      }
      vars := envs[co];
      assert envs == old(envs)[co := vars];
    }

    method SetEnv(co: nat, hooked: bool, name: string, newValue: Option<string>, overwrite: bool) returns (r: Result)
      requires Valid() && Inv(Abs())
      modifies this
      ensures Valid() && Abs() == Do(old(Abs()), CoEnv.SetEnv(co, hooked, name, newValue, overwrite))
      ensures r.System? <==> Abs().system != old(system)
    {
      if hooked && data != null {
        var vars := Prepare(co);
        var e := BSearch(vars, name);
        if e.Some? {
          if overwrite || vars[e.value].value.None? {
            vars := vars[e.value := vars[e.value].(value := newValue)];
          } else {
            assert vars == vars[e.value := vars[e.value].(value := vars[e.value].value)];
          }
          envs := envs[co := vars];
          return Private(None);
        }
      }
      system := system + [CoEnv.SetEnv(co, hooked, name, newValue, overwrite)];
      return System;
    }

    method UnsetEnv(co: nat, hooked: bool, name: string) returns (r: Result)
      requires Valid() && Inv(Abs())
      modifies this
      ensures Valid() && Abs() == Do(old(Abs()), CoEnv.UnsetEnv(co, hooked, name))
      ensures r.System? <==> Abs().system != old(system)
    {
      if hooked && data != null {
        var vars := Prepare(co);
        var e := BSearch(vars, name);
        if e.Some? {
          envs := envs[co := vars[e.value := vars[e.value].(value := None)]];
          return Private(None);
        }
      }
      system := system + [CoEnv.UnsetEnv(co, hooked, name)];
      return System;
    }

    method GetEnv(co: nat, hooked: bool, name: string) returns (r: Result)
      requires Valid() && Inv(Abs())
      modifies this
      ensures Valid() && Abs() == Do(old(Abs()), CoEnv.GetEnv(co, hooked, name))
      ensures r ==
        if hooked && old(data) != null && name in old(Abs()).table.value
        then Private(Value(old(Abs()), co, name))
        else System
    {
      SystemCalls(Abs(), CoEnv.GetEnv(co, hooked, name));
      if hooked && data != null {
        var vars := Prepare(co);
        var e := BSearch(vars, name);
        if e.Some? {
          assert Names(vars)[e.value] == name;
          assert vars == vars[e.value := vars[e.value].(value := vars[e.value].value)];
          return Private(vars[e.value].value);
        }
        assert forall i :: 0 <= i < |vars| ==> Names(vars)[i] == vars[i].name;
      }
      system := system + [CoEnv.GetEnv(co, hooked, name)];
      return System;
    }
  }
}
