/** The sloppy for-head hoist (pkg/tc39/hoist.go, hoistSloppyForBindings): exactly which names a body
    gets declared, and in what order. */
module Hoist {
  import opened Identifiers
  import ForHeads
  import MaskLiterals

  /** Of all occurrences, those of `name` are targets, every one, and there is at least one. */
  ghost predicate Wins(occs: seq<Occurrence>, targets: set<nat>, name: string) {
    (exists o :: o in occs && o.name == name) && forall o :: o in occs && o.name == name ==> o.pos in targets
  }

  /** The names of occurrences `k` and on that win and are not in `seen`, each once, as first met. */
  ghost function NamesFrom(occs: seq<Occurrence>, k: nat, targets: set<nat>, seen: set<string>): seq<string>
    requires k <= |occs|
    decreases |occs| - k
  {
    if k == |occs| then []
    else if Wins(occs, targets, occs[k].name) && occs[k].name !in seen then
      [occs[k].name] + NamesFrom(occs, k + 1, targets, seen + {occs[k].name})
    else NamesFrom(occs, k + 1, targets, seen)
  }

  /** The names hoisted for masked code. */
  ghost function HoistedNames(code: string): seq<string> {
    NamesFrom(OccurrencesFrom(code, 0), 0, ForHeads.ForTargets(code), {})
  }

  function Join(names: seq<string>): string {
    if names == [] then "" else if |names| == 1 then names[0] else names[0] + ", " + Join(names[1..])
  }

  function Declaration(names: seq<string>): string {
    if names == [] then "" else "var " + Join(names) + ";\n"
  }

  ghost function Hoisted(body: string): string {
    Declaration(HoistedNames(MaskLiterals.Masked(body)))
  }

  method JoinNames(names: seq<string>) returns (s: string)
    ensures s == Join(names)
  {
    s := "";
    var k := |names|;
    while k > 0
      invariant 0 <= k <= |names| && s == Join(names[k..])
    {
      k := k - 1;
      assert names[k..][1..] == names[k + 1..];
      s := if k == |names| - 1 then names[k] else names[k] + ", " + s;
    }
    assert names[0..] == names;
  }

  /** First pass: the names with an occurrence that is no target. */
  method SplitNames(occs: seq<Occurrence>, targets: set<nat>) returns (hasTarget: set<string>, hasOther: set<string>)
    ensures forall name :: name in hasOther <==> exists o :: o in occs && o.name == name && o.pos !in targets
    ensures forall name :: name in hasTarget <==> exists o :: o in occs && o.name == name && o.pos in targets
  {
    hasTarget, hasOther := {}, {};
    for i := 0 to |occs|
      invariant forall name :: name in hasOther <==> exists o :: o in occs[..i] && o.name == name && o.pos !in targets
      invariant forall name :: name in hasTarget <==> exists o :: o in occs[..i] && o.name == name && o.pos in targets
    {
      assert occs[..i + 1] == occs[..i] + [occs[i]];
      if occs[i].pos in targets {
        hasTarget := hasTarget + {occs[i].name};
        continue;
      }
      hasOther := hasOther + {occs[i].name};
    }
    assert occs[..|occs|] == occs;
  }

  /** Second pass: the winners, in order. */
  method CollectWinners(occs: seq<Occurrence>, targets: set<nat>, hasOther: set<string>) returns (names: seq<string>)
    requires forall name :: name in hasOther <==> exists o :: o in occs && o.name == name && o.pos !in targets
    ensures names == NamesFrom(occs, 0, targets, {})
  {
    names := [];
    var seen: set<string> := {};
    for i := 0 to |occs|
      invariant names + NamesFrom(occs, i, targets, seen) == NamesFrom(occs, 0, targets, {})
    {
      var occ := occs[i];
      assert occ in occs;
      if occ.pos !in targets || occ.name in seen {
        continue;
      }
      if occ.name in hasOther {
        continue;
      }
      assert Wins(occs, targets, occ.name);
      seen := seen + {occ.name};
      names := names + [occ.name];
    }
  }

  method HoistSloppyForBindings(body: string) returns (decl: string)
    ensures decl == Hoisted(body)
  {
    var code := MaskLiterals.MaskLiterals(body);
    var targets := ForHeads.ForBindingTargets(code);
    var occs := ScanIdents(code);
    if |targets| == 0 {
      NoTargetsNoNames(occs, 0, {});
      return "";
    }
    var hasTarget, hasOther := SplitNames(occs, targets);
    var names := CollectWinners(occs, targets, hasOther);
    if |names| == 0 { return ""; }
    var joined := JoinNames(names);
    return "var " + joined + ";\n";
  }

  lemma {:induction false} NoTargetsNoNames(occs: seq<Occurrence>, k: nat, seen: set<string>)
    requires k <= |occs|
    ensures NamesFrom(occs, k, {}, seen) == []
    decreases |occs| - k
  {
    if k == |occs| {
    } else {
      assert occs[k] in occs;
      NoTargetsNoNames(occs, k + 1, seen);
    }
  }

  /** Name `n` first occurs at index `k` of the list. */
  ghost predicate FirstAt(occs: seq<Occurrence>, n: string, k: nat) {
    k < |occs| && occs[k].name == n && forall j :: 0 <= j < k ==> occs[j].name != n
  }

  /** The hoisted names are the winners not seen before, none twice, in order of first occurrence. */
  lemma {:induction false} NamesExact(occs: seq<Occurrence>, k: nat, targets: set<nat>, seen: set<string>)
    requires k <= |occs| && forall j :: 0 <= j < k && Wins(occs, targets, occs[j].name) ==> occs[j].name in seen
    ensures var names := NamesFrom(occs, k, targets, seen);
            (forall n :: n in names <==> n !in seen && Wins(occs, targets, n)) &&
            (forall a, b :: 0 <= a < b < |names| ==> names[a] != names[b])
    decreases |occs| - k
  {
    if k == |occs| {
    } else {
      var n := occs[k].name;
      if Wins(occs, targets, n) && n !in seen {
        NamesExact(occs, k + 1, targets, seen + {n});
      } else {
        NamesExact(occs, k + 1, targets, seen);
      }
    }
  }

  lemma {:induction false} NamesInOrder(occs: seq<Occurrence>, k: nat, targets: set<nat>, seen: set<string>, a: nat,
                                        b: nat)
    requires k <= |occs| && a < b < |NamesFrom(occs, k, targets, seen)|
    requires forall j :: 0 <= j < k && Wins(occs, targets, occs[j].name) ==> occs[j].name in seen
    ensures var names := NamesFrom(occs, k, targets, seen);
            exists i, j :: k <= i < j && FirstAt(occs, names[a], i) && FirstAt(occs, names[b], j)
    decreases |occs| - k
  {
    var names := NamesFrom(occs, k, targets, seen);
    var n := occs[k].name;
    if Wins(occs, targets, n) && n !in seen {
      var rest := NamesFrom(occs, k + 1, targets, seen + {n});
      assert names == [n] + rest;
      if a > 0 {
        assert names[a] == rest[a - 1] && names[b] == rest[b - 1];
        NamesInOrder(occs, k + 1, targets, seen + {n}, a - 1, b - 1);
      } else {
        assert FirstAt(occs, n, k);
        var j := FirstOf(occs, k + 1, targets, seen + {n}, b - 1);
        assert names[0] == n && names[b] == rest[b - 1];
        assert FirstAt(occs, names[b], j);
      }
    } else {
      NamesInOrder(occs, k + 1, targets, seen, a, b);
    }
  }

  lemma {:induction false} FirstOf(occs: seq<Occurrence>, k: nat, targets: set<nat>, seen: set<string>, b: nat)
    returns (j: nat)
    requires k <= |occs| && b < |NamesFrom(occs, k, targets, seen)|
    requires forall j :: 0 <= j < k && Wins(occs, targets, occs[j].name) ==> occs[j].name in seen
    ensures k <= j && FirstAt(occs, NamesFrom(occs, k, targets, seen)[b], j)
    decreases |occs| - k
  {
    var n := occs[k].name;
    if Wins(occs, targets, n) && n !in seen {
      if b == 0 {
        j := k;
      } else {
        j := FirstOf(occs, k + 1, targets, seen + {n}, b - 1);
      }
    } else {
      j := FirstOf(occs, k + 1, targets, seen, b);
    }
  }

  /** Some byte of the masked code is a for-head target named `name`, and every byte where an
      identifier of that name occurs is one. */
  ghost predicate OnlyTargets(code: string, name: string) {
    (exists p :: p in ForHeads.ForTargets(code) && p <= |code| && OccurrenceAt(code, p).name == name) &&
    forall p: nat :: Occurs(code, p) && OccurrenceAt(code, p).name == name ==> p in ForHeads.ForTargets(code)
  }

  lemma {:induction false} WinsIff(code: string, name: string)
    ensures Wins(OccurrencesFrom(code, 0), ForHeads.ForTargets(code), name) <==> OnlyTargets(code, name)
  {
    var occs, targets := OccurrencesFrom(code, 0), ForHeads.ForTargets(code);
    if Wins(occs, targets, name) {
      var o :| o in occs && o.name == name;
      OccurrencesExact(code, 0, o);
      assert o.pos in targets;
      forall p: nat | Occurs(code, p) && OccurrenceAt(code, p).name == name ensures p in targets {
        OccurrencesExact(code, 0, OccurrenceAt(code, p));
      }
    }
    if OnlyTargets(code, name) {
      var p :| p in targets && p <= |code| && OccurrenceAt(code, p).name == name;
      ForHeads.OffsetsAgree(code, p);
      forall o | o in occs && o.name == name ensures o.pos in targets {
        OccurrencesExact(code, 0, o);
      }
    }
  }

  /** Exactness: a name is declared iff it is a for-head target somewhere and nothing else anywhere;
      each declared name appears once; nothing is emitted iff there is no such name. */
  lemma {:induction false} HoistExact(body: string)
    ensures var code := MaskLiterals.Masked(body);
            var names := HoistedNames(code);
            (forall name :: name in names <==> OnlyTargets(code, name)) &&
            (forall a, b :: 0 <= a < b < |names| ==> names[a] != names[b]) &&
            (Hoisted(body) == "" <==> forall name :: !OnlyTargets(code, name))
  {
    var code := MaskLiterals.Masked(body);
    var names := HoistedNames(code);
    NamesExact(OccurrencesFrom(code, 0), 0, ForHeads.ForTargets(code), {});
    forall name ensures name in names <==> OnlyTargets(code, name) {
      WinsIff(code, name);
    }
    if names != [] {
      assert names[0] in names;
      assert Declaration(names)[0] == 'v';
    }
  }

  /** Declared names come in the order in which they first occur in the body. */
  lemma {:induction false} HoistInOrder(code: string, a: nat, b: nat)
    requires a < b < |HoistedNames(code)|
    ensures exists i, j :: i < j && FirstAt(OccurrencesFrom(code, 0), HoistedNames(code)[a], i) &&
              FirstAt(OccurrencesFrom(code, 0), HoistedNames(code)[b], j)
  {
    NamesInOrder(OccurrencesFrom(code, 0), 0, ForHeads.ForTargets(code), {}, a, b);
  }

  // ---------------------------------------------------------------- reading the declaration back

  /** The pieces of a text between its commas, each without one blank in front. */
  function Listed(s: string): (r: seq<string>)
    ensures r != []
  {
    if s == "" then [""]
    else if s[0] == ',' then [""] + Listed(if |s| > 1 && s[1] == ' ' then s[2..] else s[1..])
    else
      var rest := Listed(s[1..]);
      [[s[0]] + rest[0]] + rest[1..]
  }

  lemma {:induction false} ListedFirst(name: string, more: string)
    requires ',' !in name
    ensures Listed(name + ", " + more) == [name] + Listed(more)
    ensures Listed(name) == [name]
  {
    var s := name + ", " + more;
    if name == "" {
      assert s[0] == ',' && s[1] == ' ' && s[2..] == more;
    } else {
      assert s[1..] == name[1..] + ", " + more;
      ListedFirst(name[1..], more);
      assert [name[0]] + name[1..] == name;
      var rest := Listed(s[1..]);
      assert rest[0] == name[1..] && rest[1..] == Listed(more);
    }
  }

  lemma {:induction false} JoinReadsBack(names: seq<string>)
    requires names != [] && forall k :: 0 <= k < |names| ==> ',' !in names[k]
    ensures Listed(Join(names)) == names
  {
    if |names| == 1 {
      ListedFirst(names[0], "");
      assert names == [names[0]];
    } else {
      JoinReadsBack(names[1..]);
      ListedFirst(names[0], Join(names[1..]));
      assert names == [names[0]] + names[1..];
    }
  }

  lemma {:induction false} NameHasNoComma(code: string, name: string)
    requires OnlyTargets(code, name)
    ensures ',' !in name
  {
    var p :| p in ForHeads.ForTargets(code) && p <= |code| && OccurrenceAt(code, p).name == name;
    assert forall k :: 0 <= k < |name| ==> name[k] == code[p + k];
  }

  /** What is emitted is `var `, the hoisted names with commas between, and `;` at the end of a line; or
      nothing, if there are none. */
  lemma {:induction false} DeclarationReadsBack(body: string)
    ensures var names := HoistedNames(MaskLiterals.Masked(body));
            if names == [] then Hoisted(body) == ""
            else exists list :: Hoisted(body) == "var " + list + ";\n" && Listed(list) == names
  {
    var code := MaskLiterals.Masked(body);
    var names := HoistedNames(code);
    if names != [] {
      HoistExact(body);
      forall k | 0 <= k < |names| ensures ',' !in names[k] {
        assert names[k] in names;
        NameHasNoComma(code, names[k]);
      }
      JoinReadsBack(names);
      assert Hoisted(body) == "var " + Join(names) + ";\n";
    }
  }
}
