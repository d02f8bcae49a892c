/** Environment variables that are private to a coroutine: the table of names, and what setenv, unsetenv
    and getenv do in a hooked coroutine. */
module CoEnv {
  import opened Basics

  // ----- strcmp -----

  predicate Less(a: string, b: string) {
    b != "" && (a == "" || a[0] < b[0] || (a[0] == b[0] && Less(a[1..], b[1..])))
  }

  lemma {:induction false} LessTrichotomy(a: string, b: string)
    ensures Less(a, b) || Less(b, a) || a == b
    ensures !(Less(a, b) && Less(b, a)) && (a == b ==> !Less(a, b))
  {
    if a != "" && b != "" && a[0] == b[0] {
      LessTrichotomy(a[1..], b[1..]);
      assert a == [a[0]] + a[1..] && b == [b[0]] + b[1..];
    }
  }

  lemma {:induction false} LessTransitive(a: string, b: string, c: string)
    requires Less(a, b) && Less(b, c)
    ensures Less(a, c)
  {
    if a != "" && a[0] == b[0] == c[0] {
      LessTransitive(a[1..], b[1..], c[1..]);
    }
  }

  // ----- the table of names -----

  /** An element of the caller's array: a null pointer or a string. */
  function Wanted(names: seq<Option<string>>): seq<string> {
    if names == [] then []
    else (if names[0].Some? && names[0].value != "" then [names[0].value] else []) + Wanted(names[1..])
  }

  predicate Sorted(s: seq<string>) {
    forall i, j :: 0 <= i < j < |s| ==> !Less(s[j], s[i])
  }

  predicate StrictlySorted(s: seq<string>) {
    forall i, j :: 0 <= i < j < |s| ==> Less(s[i], s[j])
  }

  function Insert(x: string, s: seq<string>): seq<string> {
    if s == [] || Less(x, s[0]) then [x] + s else [s[0]] + Insert(x, s[1..])
  }

  /** qsort. Equal names are the same string, so any sort gives this result. */
  function Sort(s: seq<string>): seq<string> {
    if s == [] then [] else Insert(s[0], Sort(s[1..]))
  }

  /** Every run of equal neighbours becomes one. */
  function Unique(s: seq<string>): seq<string> {
    if |s| <= 1 then s
    else
      var u := Unique(s[..|s| - 1]);
      if s[|s| - 1] == s[|s| - 2] then u else u + [s[|s| - 1]]
  }

  function Table(names: seq<Option<string>>): seq<string> {
    Unique(Sort(Wanted(names)))
  }

  lemma {:induction false} InsertSorted(x: string, s: seq<string>)
    requires Sorted(s)
    ensures Sorted(Insert(x, s)) && multiset(Insert(x, s)) == multiset(s) + multiset{x}
    decreases |s|
  {
    if s == [] || Less(x, s[0]) {
      forall j | 0 <= j < |s| ensures !Less(s[j], x) { Below(x, s, j); }
    } else {
      InsertSorted(x, s[1..]);
      var t := Insert(x, s[1..]);
      assert s == [s[0]] + s[1..];
      forall j | 0 <= j < |t| ensures !Less(t[j], s[0]) {
        assert t[j] in multiset(t);
        NotBelowHead(x, s, t[j]);
      }
    }
  }

  lemma NotBelowHead(x: string, s: seq<string>, y: string)
    requires Sorted(s) && s != [] && !Less(x, s[0]) && (y == x || y in s[1..])
    ensures !Less(y, s[0])
  {
    if y in s[1..] {
      var k :| 0 <= k < |s[1..]| && s[1..][k] == y;
      assert s[1 + k] == y;
    }
  }

  lemma Below(x: string, s: seq<string>, j: nat)
    requires Sorted(s) && j < |s| && Less(x, s[0])
    ensures !Less(s[j], x)
  {
    LessTrichotomy(s[j], s[0]);
    if Less(s[j], x) {
      LessTransitive(s[j], x, s[0]);
    }
  }

  lemma {:induction false} SortSorts(s: seq<string>)
    ensures Sorted(Sort(s)) && multiset(Sort(s)) == multiset(s)
  {
    if s != [] {
      SortSorts(s[1..]);
      InsertSorted(s[0], Sort(s[1..]));
      assert s == [s[0]] + s[1..];
    }
  }

  lemma {:induction false} UniqueSorted(s: seq<string>)
    requires Sorted(s)
    ensures StrictlySorted(Unique(s)) && (forall x :: x in Unique(s) <==> x in s)
    ensures s != [] ==> Unique(s) != [] && Unique(s)[|Unique(s)| - 1] == s[|s| - 1]
    decreases |s|
  {
    if |s| > 1 {
      var n := |s|;
      var r, u := s[..n - 1], Unique(s[..n - 1]);
      UniqueSorted(r);
      assert s == r + [s[n - 1]];
      if s[n - 1] != s[n - 2] {
        LessTrichotomy(s[n - 2], s[n - 1]);
        forall i | 0 <= i < |u| ensures Less(u[i], s[n - 1]) {
          if i < |u| - 1 { LessTransitive(u[i], s[n - 2], s[n - 1]); }
        }
      }
    }
  }

  lemma {:induction false} WantedAre(names: seq<Option<string>>)
    ensures forall x :: x in Wanted(names) <==> x != "" && Some(x) in names
  {
    if names != [] {
      WantedAre(names[1..]);
      assert names == [names[0]] + names[1..];
    }
  }

  /** The table is strictly sorted and its names are exactly the distinct non-empty inputs. */
  lemma TableIsSet(names: seq<Option<string>>)
    ensures StrictlySorted(Table(names)) && forall x :: x in Table(names) <==> x != "" && Some(x) in names
  {
    var w := Wanted(names);
    WantedAre(names);
    SortSorts(w);
    UniqueSorted(Sort(w));
    forall x ensures x in Sort(w) <==> x in w { assert x in multiset(Sort(w)) <==> x in multiset(w); }
  }

  // ----- variables -----

  datatype Entry = Entry(name: string, value: Option<string>)

  function Names(e: seq<Entry>): seq<string> {
    seq(|e|, i requires 0 <= i < |e| => e[i].name)
  }

  /** dup_co_sysenv_arr of the table, in which no variable has a value. */
  function Blank(table: seq<string>): seq<Entry> {
    seq(|table|, i requires 0 <= i < |table| => Entry(table[i], None))
  }

  /** The position of a name. */
  function Find(e: seq<Entry>, n: string): (r: Option<nat>)
    ensures r.Some? ==> r.value < |e| && e[r.value].name == n
    ensures r.None? ==> forall i :: 0 <= i < |e| ==> e[i].name != n
  {
    if e == [] then None
    else if e[|e| - 1].name == n then Some(|e| - 1)
    else Find(e[..|e| - 1], n)
  }

  /** The process: the table once co_set_env_list has made it, and pvEnv of every coroutine that has
      one. Calls that reach the C library are only recorded. */
  datatype Process = Process(table: Option<seq<string>>, envs: map<nat, seq<Entry>>, system: seq<Call>)

  datatype Call =
    | SetList(names: seq<Option<string>>)
    | SetEnv(co: nat, hooked: bool, name: string, newValue: Option<string>, overwrite: bool)
    | UnsetEnv(co: nat, hooked: bool, name: string)
    | GetEnv(co: nat, hooked: bool, name: string)

  function Vars(p: Process, co: nat): seq<Entry>
    requires p.table.Some?
  {
    if co in p.envs then p.envs[co] else Blank(p.table.value)
  }

  /** What a call makes of the value of the variable it names. */
  function Effect(c: Call, v: Option<string>): Option<string> {
    match c
    case SetEnv(_, _, _, newValue, overwrite) => if overwrite || v.None? then newValue else v
    case UnsetEnv(_, _, _) => None
    case _ => v
  }

  function Do(p: Process, c: Call): Process {
    if c.SetList? then
      if p.table.Some? then p else p.(table := Some(Table(c.names)))
    else if !c.hooked || p.table.None? then
      p.(system := p.system + [c])
    else
      var vars := Vars(p, c.co);
      match Find(vars, c.name)
      case None => p.(envs := p.envs[c.co := vars], system := p.system + [c])
      case Some(k) => p.(envs := p.envs[c.co := vars[k := vars[k].(value := Effect(c, vars[k].value))]])
  }

  function DoAll(p: Process, calls: seq<Call>): Process
    decreases |calls|
  {
    if calls == [] then p else Do(DoAll(p, calls[..|calls| - 1]), calls[|calls| - 1])
  }

  const NEW := Process(None, map[], [])

  /** What getenv returns in a hooked coroutine for a name of the table. */
  function Value(p: Process, co: nat, n: string): Option<string>
    requires p.table.Some?
  {
    var k := Find(Vars(p, co), n);
    if k.None? then None else Vars(p, co)[k.value].value
  }

  // ----- the private variables as a plain map -----

  ghost predicate HasTable(calls: seq<Call>) {
    exists i :: 0 <= i < |calls| && calls[i].SetList?
  }

  /** What a variable of coroutine co should be after the calls: only its own hooked calls that name the
      variable count, from the moment there is a table. */
  ghost function Own(calls: seq<Call>, co: nat, n: string): Option<string>
    decreases |calls|
  {
    if calls == [] then None
    else
      var before, c := calls[..|calls| - 1], calls[|calls| - 1];
      var v := Own(before, co, n);
      if c.SetList? || !c.hooked || c.co != co || c.name != n || !HasTable(before) then v
      else match c
        case SetEnv(_, _, _, newValue, overwrite) => if overwrite || v.None? then newValue else v
        case UnsetEnv(_, _, _) => None
        case _ => v
  }

  ghost predicate Inv(p: Process) {
    && (p.table.None? ==> p.envs == map[])
    && (p.table.Some? ==>
         StrictlySorted(p.table.value) && forall co :: co in p.envs ==> Names(p.envs[co]) == p.table.value)
  }

  lemma DoKeeps(p: Process, c: Call)
    requires Inv(p)
    ensures Inv(Do(p, c))
  {
    if c.SetList? {
      TableIsSet(c.names);
    } else if c.hooked && p.table.Some? {
      assert Names(Vars(p, c.co)) == p.table.value;
      assert Names(Do(p, c).envs[c.co]) == p.table.value;
    }
  }

  lemma {:induction false} DoAllKeeps(calls: seq<Call>)
    ensures Inv(DoAll(NEW, calls)) && (DoAll(NEW, calls).table.Some? <==> HasTable(calls))
    decreases |calls|
  {
    if calls != [] {
      var before, c := calls[..|calls| - 1], calls[|calls| - 1];
      DoAllKeeps(before);
      DoKeeps(DoAll(NEW, before), c);
      assert calls == before + [c];
      if HasTable(before) {
        var i :| 0 <= i < |before| && before[i].SetList?;
        assert calls[i].SetList?;
      }
    }
  }

  lemma FindUnique(e: seq<Entry>, n: string, k: nat)
    requires StrictlySorted(Names(e)) && k < |e| && e[k].name == n
    ensures Find(e, n) == Some(k)
  {
    var i := Find(e, n).value;
    assert Names(e)[i] == Names(e)[k] == n;
    LessTrichotomy(n, n);
  }

  lemma VarAt(p: Process, co: nat, k: nat)
    requires Inv(p) && p.table.Some? && k < |p.table.value|
    ensures Names(Vars(p, co)) == p.table.value && Find(Vars(p, co), p.table.value[k]) == Some(k)
    ensures Value(p, co, p.table.value[k]) == Vars(p, co)[k].value
  {
    assert Names(Vars(p, co)) == p.table.value;
    assert Names(Vars(p, co))[k] == Vars(p, co)[k].name;
    FindUnique(Vars(p, co), p.table.value[k], k);
  }

  lemma DoVars(p: Process, c: Call, k: nat)
    requires Inv(p) && !c.SetList? && c.hooked && p.table.Some? && k < |p.table.value| && p.table.value[k] == c.name
    ensures Vars(Do(p, c), c.co) == Vars(p, c.co)[k := Vars(p, c.co)[k].(value := Effect(c, Vars(p, c.co)[k].value))]
  {
    VarAt(p, c.co, k);
  }

  lemma DoOther(p: Process, c: Call, k: nat)
    requires Inv(p) && !c.SetList? && c.hooked && p.table.Some? && k < |p.table.value| && p.table.value[k] != c.name
    ensures |Vars(Do(p, c), c.co)| == |Vars(p, c.co)| > k && Vars(Do(p, c), c.co)[k] == Vars(p, c.co)[k]
  {
    assert Names(Vars(p, c.co)) == p.table.value;
    assert Names(Vars(p, c.co))[k] == Vars(p, c.co)[k].name;
  }

  lemma DoValueAt(p: Process, c: Call, co: nat, k: nat)
    requires Inv(p) && Inv(Do(p, c)) && p.table.Some? && k < |p.table.value|
    ensures var n := p.table.value[k];
      Do(p, c).table == p.table && Value(Do(p, c), co, n) ==
      if c.SetList? || !c.hooked || c.co != co || c.name != n then Value(p, co, n) else Effect(c, Value(p, co, n))
  {
    VarAt(p, co, k);
    VarAt(Do(p, c), co, k);
    if !c.SetList? && c.hooked && c.co == co {
      if c.name == p.table.value[k] { DoVars(p, c, k); } else { DoOther(p, c, k); }
    }
  }

  /** One call as seen by one variable. */
  lemma DoValue(p: Process, c: Call, co: nat, n: string)
    requires Inv(p) && p.table.Some? && n in p.table.value
    ensures Do(p, c).table == p.table
    ensures Value(Do(p, c), co, n) ==
      if c.SetList? || !c.hooked || c.co != co || c.name != n then Value(p, co, n) else Effect(c, Value(p, co, n))
  {
    DoKeeps(p, c);
    var k :| 0 <= k < |p.table.value| && p.table.value[k] == n;
    DoValueAt(p, c, co, k);
  }

  lemma {:induction false} NoTableNoVars(calls: seq<Call>, co: nat, n: string)
    requires !HasTable(calls)
    ensures Own(calls, co, n) == None
    decreases |calls|
  {
    if calls != [] {
      var before := calls[..|calls| - 1];
      assert !HasTable(before) by {
        forall i | 0 <= i < |before| ensures !before[i].SetList? { assert calls[i] == before[i]; }
      }
      NoTableNoVars(before, co, n);
    }
  }

  lemma BlankValue(p: Process, co: nat, n: string)
    requires p.table.Some? && co !in p.envs
    ensures Value(p, co, n) == None
  {
  }

  /** Over any calls by any coroutines, a listed variable is a private variable of each coroutine: it has
      the value that the coroutine's own calls gave it, whatever the others did. */
  lemma {:induction false} VariablesArePrivate(calls: seq<Call>, co: nat, n: string)
    requires HasTable(calls) && DoAll(NEW, calls).table.Some? && n in DoAll(NEW, calls).table.value
    ensures Value(DoAll(NEW, calls), co, n) == Own(calls, co, n)
    decreases |calls|
  {
    var before, c := calls[..|calls| - 1], calls[|calls| - 1];
    var p := DoAll(NEW, before);
    DoAllKeeps(before);
    if HasTable(before) {
      DoValue(p, c, co, n);
      VariablesArePrivate(before, co, n);
    } else {
      NoTableNoVars(before, co, n);
      assert c.SetList?;
      BlankValue(Do(p, c), co, n);
    }
  }

  /** A call reaches the C library exactly if it is not hooked, or there is no table, or its name is not
      in the table; then it changes no private variable. */
  lemma SystemCalls(p: Process, c: Call)
    requires Inv(p) && !c.SetList?
    ensures Do(p, c).system == if c.hooked && p.table.Some? && c.name in p.table.value then p.system else p.system + [c]
    ensures c.hooked && p.table.Some? && c.name !in p.table.value ==> Vars(Do(p, c), c.co) == Vars(p, c.co)
  {
    if c.hooked && p.table.Some? {
      var e := Vars(p, c.co);
      assert Names(e) == p.table.value;
      var k := Find(e, c.name);
      if k.Some? {
        assert Names(e)[k.value] == c.name;
      } else {
        assert forall i :: 0 <= i < |e| ==> Names(e)[i] == e[i].name;
      }
    }
  }
}
