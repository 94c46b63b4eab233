/** The data logic of the specialty-bonus dialogs: parsing the `;`-separated
    path list, choosing the game system, looking up the stored bonus list by
    a dot path, and the append / remove / replace edits whose result is handed
    to the actor update. */
module SpecialtyBonuses {
  import opened Wrappers
  import opened JsText

  /** A JavaScript value in the actor's data tree. Numbers are integers here. */
  datatype Value =
    | Undefined
    | Null
    | Bool(b: bool)
    | Num(n: int)
    | Str(s: string)
    | Arr(elems: seq<Value>)
    | Obj(fields: map<string, Value>)

  /** JavaScript truthiness. */
  predicate Truthy(v: Value) {
    match v
    case Undefined => false
    case Null => false
    case Bool(b) => b
    case Num(n) => n != 0
    case Str(s) => s != ""
    case Arr(_) => true
    case Obj(_) => true
  }

  /** `obj[key]`: an own property of an object, `undefined` otherwise. */
  function Get(obj: Value, key: string): Value {
    if obj.Obj? && key in obj.fields then obj.fields[key] else Undefined
  }

  /** One step of the lookup reducer, `obj && obj[key]`. */
  function Step(obj: Value, key: string): Value {
    if Truthy(obj) then Get(obj, key) else obj
  }

  /** `keys.reduce((obj, key) => obj && obj[key], root)`: a truthy result is
      the value stored along `keys`. */
  function Walk(root: Value, keys: seq<string>): (r: Value)
    ensures Truthy(r) ==> At(root, keys) == Some(r)
    decreases |keys|
  {
    if keys == [] then root else Walk(Step(root, keys[0]), keys[1..])
  }

  /** `path.split('.').reduce(...) || fallback`: the value stored along the
      path when there is one and it is truthy, the fallback otherwise. */
  function Resolve(root: Value, path: string, fallback: Value): (r: Value)
    ensures var stored := At(root, Split(path, '.'));
            r == if stored.Some? && Truthy(stored.value) then stored.value else fallback
  {
    var found := Walk(root, Split(path, '.'));
    WalkMatchesAt(root, Split(path, '.'), fallback);
    if Truthy(found) then found else fallback
  }

  /** The value stored under `keys`, following object properties only; the
      reference against which the reducer is checked. */
  function At(root: Value, keys: seq<string>): Option<Value>
    decreases |keys|
  {
    if keys == [] then Some(root)
    else if root.Obj? && keys[0] in root.fields then At(root.fields[keys[0]], keys[1..])
    else None
  }

  /** The reducer finds the stored value when every step is present and that
      value is truthy, and the caller's fallback in every other case: a
      missing step, a falsy value on the way, or a falsy value at the end. */
  lemma {:induction false} WalkMatchesAt(root: Value, keys: seq<string>, fallback: Value)
    ensures var found := Walk(root, keys);
            (if Truthy(found) then found else fallback) ==
            (if At(root, keys).Some? && Truthy(At(root, keys).value) then At(root, keys).value else fallback)
  {
    if keys != [] {
      if Truthy(root) && root.Obj? && keys[0] in root.fields {
        WalkMatchesAt(root.fields[keys[0]], keys[1..], fallback);
      } else {
        WalkFalsy(Step(root, keys[0]), keys[1..]);
      }
    }
  }

  /** Once the reducer holds a falsy value it keeps it. */
  lemma {:induction false} WalkFalsy(v: Value, keys: seq<string>)
    requires !Truthy(v)
    ensures Walk(v, keys) == v
    decreases |keys|
  {
    if keys != [] {
      WalkFalsy(Step(v, keys[0]), keys[1..]);
    }
  }

  // ----- the path list of a bonus -----

  function TrimAll(parts: seq<string>): (r: seq<string>)
    ensures |r| == |parts|
    ensures forall i :: 0 <= i < |r| ==> r[i] == Trim(parts[i])
  {
    if parts == [] then [] else [Trim(parts[0])] + TrimAll(parts[1..])
  }

  /** `filter(item => item !== "")`: the non-empty pieces and nothing else;
      `DropEmptyCounts` adds that each keeps its number of occurrences. */
  function DropEmpty(parts: seq<string>): (r: seq<string>)
    ensures forall i :: 0 <= i < |r| ==> r[i] != "" && r[i] in parts
    ensures forall x :: x in r <==> x in parts && x != ""
  {
    if parts == [] then [] else (if parts[0] == "" then [] else [parts[0]]) + DropEmpty(parts[1..])
  }

  /** Dropping the empty pieces keeps every other piece as often as it occurs. */
  lemma {:induction false} DropEmptyCounts(parts: seq<string>)
    ensures multiset(DropEmpty(parts)) == multiset(parts)["" := 0]
  {
    if parts != [] {
      var head := if parts[0] == "" then [] else [parts[0]];
      DropEmptyCounts(parts[1..]);
      assert parts == [parts[0]] + parts[1..];
      assert multiset(parts) == multiset([parts[0]]) + multiset(parts[1..]);
      assert multiset(head + DropEmpty(parts[1..])) == multiset(head) + multiset(DropEmpty(parts[1..]));
    }
  }

  /** `raw.split(";").map(trim).filter(item => item !== "")` */
  function ParsePaths(raw: string): (paths: seq<string>)
    ensures forall i :: 0 <= i < |paths| ==> paths[i] != "" && Trim(paths[i]) == paths[i] && ';' !in paths[i]
  {
    var pieces := Split(raw, ';');
    CleanPieces(pieces);
    DropEmpty(TrimAll(pieces))
  }

  /** Trimmed pieces without a separator are trimmed and separator-free. */
  lemma CleanPieces(pieces: seq<string>)
    requires forall i :: 0 <= i < |pieces| ==> ';' !in pieces[i]
    ensures forall i :: 0 <= i < |DropEmpty(TrimAll(pieces))| ==>
      Trim(DropEmpty(TrimAll(pieces))[i]) == DropEmpty(TrimAll(pieces))[i] && ';' !in DropEmpty(TrimAll(pieces))[i]
  {
    var paths := DropEmpty(TrimAll(pieces));
    forall i | 0 <= i < |paths| ensures Trim(paths[i]) == paths[i] && ';' !in paths[i] {
      assert paths[i] in paths;
      CleanPiece(pieces, paths[i]);
    }
  }

  /** One trimmed piece without a separator is trimmed and separator-free. */
  lemma CleanPiece(pieces: seq<string>, x: string)
    requires forall i :: 0 <= i < |pieces| ==> ';' !in pieces[i]
    requires x in TrimAll(pieces)
    ensures Trim(x) == x && ';' !in x
  {
    var j :| 0 <= j < |pieces| && TrimAll(pieces)[j] == x;
    TrimIdempotent(pieces[j]);
    assert ';' !in pieces[j];
  }

  lemma {:induction false} TrimAllAppend(a: seq<string>, b: seq<string>)
    ensures TrimAll(a + b) == TrimAll(a) + TrimAll(b)
  {
    if a == [] {
      assert a + b == b;
    } else {
      assert (a + b)[1..] == a[1..] + b;
      TrimAllAppend(a[1..], b);
    }
  }

  lemma {:induction false} DropEmptyAppend(a: seq<string>, b: seq<string>)
    ensures DropEmpty(a + b) == DropEmpty(a) + DropEmpty(b)
  {
    if a == [] {
      assert a + b == b;
    } else {
      assert (a + b)[1..] == a[1..] + b;
      DropEmptyAppend(a[1..], b);
    }
  }

  /** The paths of `a;b` are the paths of `a` followed by those of `b`: the
      parser keeps the input order. */
  lemma ParsePathsAppend(a: string, b: string)
    ensures ParsePaths(a + [';'] + b) == ParsePaths(a) + ParsePaths(b)
  {
    SplitAtSeparator(a, b, ';');
    TrimAllAppend(Split(a, ';'), Split(b, ';'));
    DropEmptyAppend(TrimAll(Split(a, ';')), TrimAll(Split(b, ';')));
  }

  /** A single piece yields its trimmed self, or nothing when it is blank. */
  lemma ParsePathsPiece(piece: string)
    requires ';' !in piece
    ensures ParsePaths(piece) == if Trim(piece) == "" then [] else [Trim(piece)]
  {
    SplitWithoutSeparator(piece, ';');
    assert TrimAll([piece]) == [Trim(piece)];
    assert DropEmpty([Trim(piece)]) == (if Trim(piece) == "" then [] else [Trim(piece)]) + DropEmpty([]);
  }

  // ----- the game system -----

  const SystemsList: seq<string> := ["vampire", "werewolf", "hunter", "mortal"]

  /** The actor's `gamesystem` when it is one of the known systems, `mortal`
      otherwise. */
  function GameSystem(gamesystem: Value): (system: string)
    ensures system in SystemsList
    ensures gamesystem.Str? && gamesystem.s in SystemsList ==> system == gamesystem.s
    ensures !(gamesystem.Str? && gamesystem.s in SystemsList) ==> system == "mortal"
  {
    if gamesystem.Str? && gamesystem.s in SystemsList then gamesystem.s else "mortal"
  }

  // ----- bonus records -----

  /** The values read from the bonus form; every `.val()` is a string. */
  datatype BonusForm = BonusForm(
    source: string,
    value: string,
    displayWhenInactive: bool,
    rawPaths: string,
    check: string,
    path: string,
    activeValue: string)

  function Strings(xs: seq<string>): (v: Value)
    ensures v.Arr? && |v.elems| == |xs|
    ensures forall i :: 0 <= i < |xs| ==> v.elems[i] == Str(xs[i])
  {
    Arr(seq(|xs|, i requires 0 <= i < |xs| => Str(xs[i])))
  }

  /** The object literal `{ source, value, paths, displayWhenInactive, activeWhen }`. */
  function BonusObject(source: Value, value: Value, paths: Value, displayWhenInactive: Value,
                       activeWhen: Value): (bonus: Value)
    ensures bonus.Obj? && bonus.fields.Keys == {"source", "value", "paths", "displayWhenInactive", "activeWhen"}
    ensures bonus.fields["source"] == source && bonus.fields["value"] == value
    ensures bonus.fields["paths"] == paths && bonus.fields["displayWhenInactive"] == displayWhenInactive
    ensures bonus.fields["activeWhen"] == activeWhen
  {
    Obj(map[
      "source" := source,
      "value" := value,
      "paths" := paths,
      "displayWhenInactive" := displayWhenInactive,
      "activeWhen" := activeWhen])
  }

  /** The bonus shown in the add dialog before the user edits it. */
  function DefaultBonus(skill: string): (bonus: Value)
    ensures bonus.Obj? && bonus.fields.Keys == {"source", "value", "paths", "displayWhenInactive", "activeWhen"}
    ensures bonus.fields["source"] == Str("New specialty")
    ensures bonus.fields["value"] == Num(1)
    ensures bonus.fields["paths"] == Arr([Str("skills." + skill)])
    ensures bonus.fields["displayWhenInactive"] == Bool(false)
    ensures bonus.fields["activeWhen"] == Obj(map["check" := Str("always")])
  {
    BonusObject(Str("New specialty"), Num(1), Arr([Str("skills." + skill)]), Bool(false),
                Obj(map["check" := Str("always")]))
  }

  /** The bonus record built from the form: its paths are the cleaned,
      non-empty pieces of the path field. */
  function NewBonus(form: BonusForm): (bonus: Value)
    ensures bonus.Obj? && bonus.fields.Keys == {"source", "value", "paths", "displayWhenInactive", "activeWhen"}
    ensures bonus.fields["source"] == Str(form.source) && bonus.fields["value"] == Str(form.value)
    ensures bonus.fields["displayWhenInactive"] == Bool(form.displayWhenInactive)
    ensures bonus.fields["paths"] == Strings(ParsePaths(form.rawPaths))
    ensures bonus.fields["paths"].Arr?
    ensures forall p :: p in bonus.fields["paths"].elems ==> p.Str? && p.s != "" && Trim(p.s) == p.s
    ensures bonus.fields["activeWhen"]
         == Obj(map["check" := Str(form.check), "path" := Str(form.path), "value" := Str(form.activeValue)])
  {
    var paths := Strings(ParsePaths(form.rawPaths));
    assert forall p :: p in paths.elems ==> p.Str? && p.s != "" && Trim(p.s) == p.s by {
      forall p | p in paths.elems ensures p.Str? && p.s != "" && Trim(p.s) == p.s {
        var i :| 0 <= i < |paths.elems| && paths.elems[i] == p;
      }
    }
    var activeWhen := Obj(map["check" := Str(form.check), "path" := Str(form.path), "value" := Str(form.activeValue)]);
    BonusObject(Str(form.source), Str(form.value), paths, Bool(form.displayWhenInactive), activeWhen)
  }

  // ----- the list edits -----

  /** `list.splice(k, 1)` with a non-negative index. */
  function RemoveAt(list: seq<Value>, k: nat): (r: seq<Value>)
    ensures k < |list| ==> |r| == |list| - 1
    ensures k < |list| ==> forall j :: 0 <= j < k ==> r[j] == list[j]
    ensures k < |list| ==> forall j :: k <= j < |r| ==> r[j] == list[j + 1]
    ensures k >= |list| ==> r == list
  {
    if k < |list| then list[..k] + list[k + 1..] else list
  }

  /** `list[k] = v`: an index past the end leaves holes, read as `undefined`. */
  function SetIndex(list: seq<Value>, k: nat, v: Value): (r: seq<Value>)
    ensures |r| == if k < |list| then |list| else k + 1
    ensures r[k] == v
    ensures forall j :: 0 <= j < |list| && j != k ==> r[j] == list[j]
    ensures forall j :: |list| <= j < k ==> r[j] == Undefined
  {
    if k < |list| then list[k := v] else list + seq(k - |list|, _ => Undefined) + [v]
  }

  /** An array of bonuses, changed in place before it is handed to the update. */
  class BonusList {
    var entries: seq<Value>

    constructor (entries: seq<Value>)
      ensures this.entries == entries
    {
      this.entries := entries;
    }

    /** `push` */
    method Push(bonus: Value)
      modifies this
      ensures entries == old(entries) + [bonus]
    {
      entries := entries + [bonus];
    }

    /** `splice(k, 1)` */
    method Splice(k: nat)
      modifies this
      ensures entries == RemoveAt(old(entries), k)
    {
      if k < |entries| {
        entries := entries[..k] + entries[k + 1..];
      }
    }

    /** `entries[k] = bonus` */
    method SetAt(k: nat, bonus: Value)
      modifies this
      ensures entries == SetIndex(old(entries), k, bonus)
    {
      if k < |entries| {
        entries := entries[k := bonus];
      } else {
        entries := entries + seq(k - |entries|, _ => Undefined) + [bonus];
      }
    }
  }

  // ----- the handlers -----

  /** The one entry handed to `actor.update`: `{ [key]: value }`. */
  datatype Update = Update(key: string, value: Value)

  /** A handler that throws before it reaches the update. */
  datatype HandlerError = TypeError

  function UpdateKey(bonusPath: string): string {
    "system." + bonusPath
  }

  /** The holder the add handler falls back on: `{ bonuses: [] }`. */
  const EmptyHolder: Value := Obj(map["bonuses" := Arr([])])

  /** The `bonuses` array the add handler appends to. */
  function AddTarget(system: Value, bonusPath: string): Value {
    Get(Resolve(system, bonusPath, EmptyHolder), "bonuses")
  }

  /** What the add handler hands to the update, as written: it reads
      `.bonuses` off the value found at the path and writes that array, with
      the new bonus last, back at the path itself. It throws when there is no
      such array. */
  function AddOutcome(system: Value, bonusPath: string, bonus: Value): (r: Result<Update, HandlerError>)
    ensures r.Ok? <==> AddTarget(system, bonusPath).Arr?
    ensures r.Ok? ==>
      var stored := AddTarget(system, bonusPath).elems;
      && r.value.key == UpdateKey(bonusPath)
      && r.value.value.Arr? && |r.value.value.elems| == |stored| + 1
      && r.value.value.elems[..|stored|] == stored && r.value.value.elems[|stored|] == bonus
  {
    var bonuses := AddTarget(system, bonusPath);
    if bonuses.Arr? then Ok(Update(UpdateKey(bonusPath), Arr(bonuses.elems + [bonus]))) else Err(TypeError)
  }

  /** The add handler as the other two handlers read the path: the value at
      the path is the list itself. */
  function AddToListOutcome(system: Value, bonusPath: string, bonus: Value): (r: Result<Update, HandlerError>)
    ensures r.Ok? <==> Resolve(system, bonusPath, Arr([])).Arr?
    ensures r.Ok? ==>
      var stored := Resolve(system, bonusPath, Arr([])).elems;
      && r.value.key == UpdateKey(bonusPath)
      && r.value.value.Arr? && |r.value.value.elems| == |stored| + 1
      && r.value.value.elems[..|stored|] == stored && r.value.value.elems[|stored|] == bonus
  {
    var list := Resolve(system, bonusPath, Arr([]));
    if list.Arr? then Ok(Update(UpdateKey(bonusPath), Arr(list.elems + [bonus]))) else Err(TypeError)
  }

  /** What the delete handler hands to the update: the value at the path is
      taken as the list itself (an empty list when none). */
  function DeleteOutcome(system: Value, bonusPath: string, k: nat): (r: Result<Update, HandlerError>)
    ensures r.Ok? <==> Resolve(system, bonusPath, Arr([])).Arr?
    ensures r.Ok? ==>
      var stored := Resolve(system, bonusPath, Arr([])).elems;
      && r.value.key == UpdateKey(bonusPath)
      && r.value.value.Arr?
      && (k < |stored| ==> (&& |r.value.value.elems| == |stored| - 1
                            && r.value.value.elems[..k] == stored[..k]
                            && r.value.value.elems[k..] == stored[k + 1..]))
      && (k >= |stored| ==> r.value.value.elems == stored)
  {
    var list := Resolve(system, bonusPath, Arr([]));
    if list.Arr? then Ok(Update(UpdateKey(bonusPath), Arr(RemoveAt(list.elems, k)))) else Err(TypeError)
  }

  /** What the edit handler hands to the update. Assigning an index of a
      plain object sets that property; of a primitive, throws (module code is
      strict). */
  function EditOutcome(system: Value, bonusPath: string, k: nat, bonus: Value): (r: Result<Update, HandlerError>)
    ensures var found := Resolve(system, bonusPath, Arr([]));
            r.Ok? <==> found.Arr? || found.Obj?
    ensures var found := Resolve(system, bonusPath, Arr([]));
            found.Arr? && k < |found.elems| ==>
              && r.Ok? && r.value.key == UpdateKey(bonusPath)
              && r.value.value.Arr? && |r.value.value.elems| == |found.elems|
              && r.value.value.elems[k] == bonus
              && forall j :: 0 <= j < |found.elems| && j != k ==> r.value.value.elems[j] == found.elems[j]
    ensures r.Ok? ==> r.value.key == UpdateKey(bonusPath)
    ensures r.Err? ==> r.error == TypeError
    ensures var found := Resolve(system, bonusPath, Arr([]));
            found.Arr? ==> r == Ok(Update(UpdateKey(bonusPath), Arr(SetIndex(found.elems, k, bonus))))
    ensures var found := Resolve(system, bonusPath, Arr([]));
            found.Obj? ==> r == Ok(Update(UpdateKey(bonusPath), Obj(found.fields[NatToString(k) := bonus])))
  {
    var list := Resolve(system, bonusPath, Arr([]));
    if list.Arr? then Ok(Update(UpdateKey(bonusPath), Arr(SetIndex(list.elems, k, bonus))))
    else if list.Obj? then Ok(Update(UpdateKey(bonusPath), Obj(list.fields[NatToString(k) := bonus])))
    else Err(TypeError)
  }

  /** The decimal form of an index, as a property name. */
  function NatToString(n: nat): (s: string)
    ensures |s| >= 1
    decreases n
  {
    var digit := "0123456789"[n % 10];
    if n < 10 then [digit] else NatToString(n / 10) + [digit]
  }

  // ----- the add handler reads the path differently -----

  /** An actor whose skill `group.skill` stores one bonus in its `bonuses` list. */
  function OneStoredBonus(group: string, skill: string, b: Value): Value {
    Obj(map[group := Obj(map[skill := Obj(map["bonuses" := Arr([b])])])])
  }

  /** The path of the skill, `group.skill`. */
  function SkillPath(group: string, skill: string): string {
    group + ['.'] + skill
  }

  /** The path of the skill's list, `group.skill.bonuses`. */
  function ListPath(group: string, skill: string): string {
    SkillPath(group, skill) + ['.'] + "bonuses"
  }

  lemma SplitSkillPath(group: string, skill: string)
    requires '.' !in group && '.' !in skill
    ensures Split(SkillPath(group, skill), '.') == [group, skill]
  {
    SplitWithoutSeparator(group, '.');
    SplitWithoutSeparator(skill, '.');
    SplitAtSeparator(group, skill, '.');
  }

  lemma SplitListPath(group: string, skill: string)
    requires '.' !in group && '.' !in skill
    ensures Split(ListPath(group, skill), '.') == [group, skill, "bonuses"]
  {
    var field := "bonuses";
    assert '.' !in field;
    SplitWithoutSeparator(field, '.');
    SplitSkillPath(group, skill);
    SplitAtSeparator(SkillPath(group, skill), field, '.');
  }

  /** The reducer steps into a property an object has. */
  lemma WalkObject(fields: map<string, Value>, key: string, rest: seq<string>)
    requires key in fields
    ensures Walk(Obj(fields), [key] + rest) == Walk(fields[key], rest)
  {
    assert ([key] + rest)[0] == key && ([key] + rest)[1..] == rest;
  }

  /** What each path finds in `OneStoredBonus`. */
  lemma ResolveSkillPaths(group: string, skill: string, b: Value, fallback: Value)
    requires '.' !in group && '.' !in skill
    ensures Resolve(OneStoredBonus(group, skill, b), SkillPath(group, skill), fallback)
         == Obj(map["bonuses" := Arr([b])])
    ensures Resolve(OneStoredBonus(group, skill, b), ListPath(group, skill), fallback) == Arr([b])
  {
    SplitSkillPath(group, skill);
    SplitListPath(group, skill);
    var inner := map[skill := Obj(map["bonuses" := Arr([b])])];
    var holder := map["bonuses" := Arr([b])];
    WalkObject(map[group := Obj(inner)], group, [skill]);
    WalkObject(inner, skill, []);
    WalkObject(map[group := Obj(inner)], group, [skill, "bonuses"]);
    WalkObject(inner, skill, ["bonuses"]);
    WalkObject(holder, "bonuses", []);
  }

  /** As written, no bonus path serves both the add and the delete handler
      once a skill stores a bonus: at the list's own path delete works and add
      throws; at the skill's path delete throws and add writes the list over
      the skill object. */
  lemma AddDisagreesWithDelete(group: string, skill: string, b: Value)
    requires '.' !in group && '.' !in skill
    ensures DeleteOutcome(OneStoredBonus(group, skill, b), ListPath(group, skill), 0)
         == Ok(Update(UpdateKey(ListPath(group, skill)), Arr([])))
    ensures AddOutcome(OneStoredBonus(group, skill, b), ListPath(group, skill), b) == Err(TypeError)
    ensures DeleteOutcome(OneStoredBonus(group, skill, b), SkillPath(group, skill), 0) == Err(TypeError)
    ensures AddOutcome(OneStoredBonus(group, skill, b), SkillPath(group, skill), b)
         == Ok(Update(UpdateKey(SkillPath(group, skill)), Arr([b, b])))
  {
    ResolveSkillPaths(group, skill, b, EmptyHolder);
    ResolveSkillPaths(group, skill, b, Arr([]));
    assert [b] + [b] == [b, b];
  }

  /** Read the way delete and edit read it, the path names one list for all
      three handlers: add succeeds exactly where delete does, writes under the
      same key, and removing its new last entry gives back the stored list. */
  lemma AddToListAgreesWithDelete(system: Value, bonusPath: string, bonus: Value, k: nat)
    ensures AddToListOutcome(system, bonusPath, bonus).Ok? <==> DeleteOutcome(system, bonusPath, k).Ok?
    ensures AddToListOutcome(system, bonusPath, bonus).Ok? ==>
      var added := AddToListOutcome(system, bonusPath, bonus).value;
      && added.key == DeleteOutcome(system, bonusPath, k).value.key
      && added.value.Arr? && |added.value.elems| > 0
      && RemoveAt(added.value.elems, |added.value.elems| - 1) == Resolve(system, bonusPath, Arr([])).elems
  {
    if AddToListOutcome(system, bonusPath, bonus).Ok? {
      var stored := Resolve(system, bonusPath, Arr([])).elems;
      var added := AddToListOutcome(system, bonusPath, bonus).value.value.elems;
      assert added[..|added| - 1] == stored;
    }
  }

  /** The corrected add appends to the stored list where the as-written one throws. */
  lemma AddToListOnStoredBonus(group: string, skill: string, b: Value)
    requires '.' !in group && '.' !in skill
    ensures AddToListOutcome(OneStoredBonus(group, skill, b), ListPath(group, skill), b)
         == Ok(Update(UpdateKey(ListPath(group, skill)), Arr([b, b])))
  {
    ResolveSkillPaths(group, skill, b, Arr([]));
    assert [b] + [b] == [b, b];
  }

  /** `_onAddBonus`, from the confirmed form to the update. */
  method OnAddBonus(system: Value, bonusPath: string, form: BonusForm) returns (r: Result<Update, HandlerError>)
    ensures r == AddOutcome(system, bonusPath, NewBonus(form))
  {
    var newBonus := NewBonus(form);
    var actorBonuses := Resolve(system, bonusPath, EmptyHolder);
    var bonuses := Get(actorBonuses, "bonuses");
    if !bonuses.Arr? {
      return Err(TypeError);
    }
    var list := new BonusList(bonuses.elems);
    list.Push(newBonus);
    r := Ok(Update(UpdateKey(bonusPath), Arr(list.entries)));
  }

  /** `_onDeleteBonus` */
  method OnDeleteBonus(system: Value, bonusPath: string, key: nat) returns (r: Result<Update, HandlerError>)
    ensures r == DeleteOutcome(system, bonusPath, key)
  {
    var actorBonuses := Resolve(system, bonusPath, Arr([]));
    if !actorBonuses.Arr? {
      return Err(TypeError);
    }
    var list := new BonusList(actorBonuses.elems);
    list.Splice(key);
    r := Ok(Update(UpdateKey(bonusPath), Arr(list.entries)));
  }

  /** `_onEditBonus`, from the confirmed form to the update. */
  method OnEditBonus(system: Value, bonusPath: string, key: nat, form: BonusForm) returns (r: Result<Update, HandlerError>)
    ensures r == EditOutcome(system, bonusPath, key, NewBonus(form))
  {
    var edited := NewBonus(form);
    var actorBonuses := Resolve(system, bonusPath, Arr([]));
    if actorBonuses.Arr? {
      var list := new BonusList(actorBonuses.elems);
      list.SetAt(key, edited);
      r := Ok(Update(UpdateKey(bonusPath), Arr(list.entries)));
    } else if actorBonuses.Obj? {
      r := Ok(Update(UpdateKey(bonusPath), Obj(actorBonuses.fields[NatToString(key) := edited])));
    } else {
      r := Err(TypeError);
    }
  }
}
