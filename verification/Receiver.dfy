/**
 Choosing the struct that stands for `this` in the analysis of a class: the one
 that contains the receivers of all its methods.
 */
module Receiver {
  import opened Wrappers
  import opened Layout

  /** findNonBaseType: the struct named like `base` without the suffix's length;
      null when the module has none. */
  function FindNonBase(structs: seq<Type>, base: Type): Option<Type>
    requires base.Struct? && IsBaseName(base.name)
    decreases |structs|
  {
    BaseNameIsLong(base.name);
    if structs == [] then None
    else if structs[0].Struct? && structs[0].name == base.name[..|base.name| - |".base"|]
    then Some(structs[0])
    else FindNonBase(structs[1..], base)
  }

  lemma BaseNameIsLong(name: string)
    requires IsBaseName(name)
    ensures 5 <= |name|
  {
    BaseNames(name);
  }

  /** Struct number `i` of the module has the name of `v` less five characters. */
  ghost predicate IsNamed(structs: seq<Type>, i: nat, v: Type) {
    i < |structs| && v.Struct? && 5 <= |v.name| && structs[i].Struct? && structs[i].name == v.name[..|v.name| - 5]
  }

  /** `u` is the first struct of the module so named, or none if there is none. */
  ghost predicate StandsFor(structs: seq<Type>, v: Type, u: Option<Type>) {
    match u
    case None => forall i: nat :: !IsNamed(structs, i, v)
    case Some(t) => exists i: nat :: IsNamed(structs, i, v) && structs[i] == t && forall j: nat :: j < i ==> !IsNamed(structs, j, v)
  }

  lemma {:induction false} FoundStandsFor(structs: seq<Type>, base: Type)
    requires base.Struct? && IsBaseName(base.name)
    ensures StandsFor(structs, base, FindNonBase(structs, base))
  {
    BaseNameIsLong(base.name);
    if structs != [] {
      if IsNamed(structs, 0, base) {
        assert StandsFor(structs, base, Some(structs[0]));
      } else {
        FoundStandsFor(structs[1..], base);
        forall i: nat
          ensures i > 0 ==> (IsNamed(structs, i, base) <==> IsNamed(structs[1..], i - 1, base))
        {
        }
        if FindNonBase(structs, base).Some? {
          var i: nat :| IsNamed(structs[1..], i, base) && structs[1..][i] == FindNonBase(structs, base).value
                        && forall j: nat :: j < i ==> !IsNamed(structs[1..], j, base);
          assert IsNamed(structs, i + 1, base);
        } else {
          forall i: nat
            ensures !IsNamed(structs, i, base)
          {
            if i > 0 {
              assert !IsNamed(structs[1..], i - 1, base);
            }
          }
        }
      }
    }
  }

  /** At most one struct, or its absence, stands for a base type. */
  lemma OneStandsFor(structs: seq<Type>, v: Type, u: Option<Type>, w: Option<Type>)
    requires StandsFor(structs, v, u) && StandsFor(structs, v, w)
    ensures u == w
  {
  }

  /** `u` is entered for the struct `v` itself. */
  ghost predicate EnteredFor(structs: seq<Type>, v: Type, u: Option<Type>) {
    v.Struct? && (u == Some(v) || (NamesBase(v.name) && StandsFor(structs, v, u)))
  }

  lemma EnteredIffFound(structs: seq<Type>, v: Type, u: Option<Type>)
    requires v.Struct?
    ensures EnteredFor(structs, v, u) <==>
              u == Some(v) || (IsBaseName(v.name) && u == FindNonBase(structs, v))
  {
    BaseNames(v.name);
    if IsBaseName(v.name) {
      FoundStandsFor(structs, v);
      if StandsFor(structs, v, u) {
        OneStandsFor(structs, v, u, FindNonBase(structs, v));
      }
    }
  }

  /** `u` is a struct nested anywhere in `t`, or what a nested base type stands for. */
  ghost predicate IsSubStruct(structs: seq<Type>, t: Type, u: Option<Type>) {
    exists path: seq<nat> ::
      path != [] && TypeAt(t, path).Some? && EnteredFor(structs, TypeAt(t, path).value, u)
  }

  /** Element `e` brings in `u`, directly or from inside. */
  ghost predicate BringsIn(structs: seq<Type>, e: Type, u: Option<Type>) {
    EnteredFor(structs, e, u) || (e.Struct? && IsSubStruct(structs, e, u))
  }

  lemma SubStructsComeFromElements(structs: seq<Type>, t: Type, u: Option<Type>)
    requires t.Struct?
    ensures IsSubStruct(structs, t, u)
       <==> exists i :: 0 <= i < |t.elems| && BringsIn(structs, t.elems[i], u)
  {
    if path: seq<nat> :|
      path != [] && TypeAt(t, path).Some? && EnteredFor(structs, TypeAt(t, path).value, u)
    {
      var e := t.elems[path[0]];
      assert TypeAt(t, path) == TypeAt(e, path[1..]);
      if path[1..] != [] {
        assert IsSubStruct(structs, e, u);
      }
      assert BringsIn(structs, e, u);
    }
    if i :| 0 <= i < |t.elems| && BringsIn(structs, t.elems[i], u) {
      if EnteredFor(structs, t.elems[i], u) {
        assert [i][1..] == [];
        assert TypeAt(t, [i]) == Some(t.elems[i]);
      } else {
        var rest: seq<nat> :| rest != [] && TypeAt(t.elems[i], rest).Some?
          && EnteredFor(structs, TypeAt(t.elems[i], rest).value, u);
        assert ([i] + rest)[1..] == rest;
        assert TypeAt(t, [i] + rest) == TypeAt(t.elems[i], rest);
      }
    }
  }

  /** addSubStructs, inserting into the set passed in. */
  method AddSubStructs(structs: seq<Type>, subs: set<Option<Type>>, t: Type)
      returns (subs': set<Option<Type>>)
    requires t.Struct?
    ensures forall u :: u in subs' <==> u in subs || IsSubStruct(structs, t, u)
    decreases t
  {
    subs' := subs;
    for i := 0 to |t.elems|
      invariant forall u :: u in subs' <==>
        u in subs || exists j :: 0 <= j < i && BringsIn(structs, t.elems[j], u)
    {
      var e := t.elems[i];
      if e.Struct? {
        subs' := subs' + {Some(e)};
        if IsBaseName(e.name) {
          subs' := subs' + {FindNonBase(structs, e)};
        }
        forall u
          ensures EnteredFor(structs, e, u) <==>
                    u == Some(e) || (IsBaseName(e.name) && u == FindNonBase(structs, e))
        {
          EnteredIffFound(structs, e, u);
        }
        subs' := AddSubStructs(structs, subs', e);
      }
    }
    forall u
      ensures u in subs' <==> u in subs || IsSubStruct(structs, t, u)
    {
      SubStructsComeFromElements(structs, t, u);
    }
  }

  /** The receiver that contains all others and is contained in none. */
  ghost predicate IsOutermost(structs: seq<Type>, receivers: seq<Type>, r: Type) {
    && r in receivers
    && (forall s :: s in receivers && s != r ==>
          IsSubStruct(structs, r, Some(s)) && !IsSubStruct(structs, s, Some(r)))
  }

  /** The choice among the first receivers gives way to the next if that contains it. */
  ghost function Selected(structs: seq<Type>, receivers: seq<Type>): Option<Type> {
    if receivers == [] then None
    else
      var n := |receivers| - 1;
      var r := Selected(structs, receivers[..n]);
      if r.None? || (r.value != receivers[n] && IsSubStruct(structs, receivers[n], r)) then Some(receivers[n]) else r
  }

  /** The selection loop of runOnModule over the methods' receivers, in the order
      in which the method set lists them. */
  method ChooseReceiver(structs: seq<Type>, receivers: seq<Type>) returns (r: Option<Type>)
    requires forall s :: s in receivers ==> s.Struct?
    ensures r.None? <==> receivers == []
    ensures r.Some? ==> r.value in receivers
    ensures forall o :: IsOutermost(structs, receivers, o) ==> r == Some(o)
    ensures r == Selected(structs, receivers)
  {
    r := None;
    for i := 0 to |receivers|
      invariant r.None? <==> i == 0
      invariant r == Selected(structs, receivers[..i])
      invariant r.Some? ==> r.value in receivers
      invariant forall o :: IsOutermost(structs, receivers, o) && o in receivers[..i] ==> r == Some(o)
    {
      var s := receivers[i];
      assert s in receivers;
      if r.None? {
        r := Some(s);
      } else if r.value != s {
        var subs := AddSubStructs(structs, {}, s);
        if r in subs {
          r := Some(s);
        }
      }
      assert receivers[..i + 1] == receivers[..i] + [s];
      assert receivers[..i + 1][..i] == receivers[..i];
    }
    assert receivers[..|receivers|] == receivers;
  }
}
