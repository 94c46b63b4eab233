/** `generateLocalizedLabel`: the display label of a key of one of the
    system's registries, chosen by a type alias. The registries and the
    host's `localize` service are parameters. */
module Localization {
  import opened Wrappers

  /** A registry entry's `displayName` and `label`; `None` when absent. */
  datatype Entry = Entry(displayName: Option<string>, labelText: Option<string>)

  type Registry = map<string, Entry>

  /** The registries the dispatch reads. */
  datatype Registries = Registries(
    actorTypes: Registry,
    attributes: Registry,
    skills: Registry,
    features: Registry,
    disciplines: Registry,
    gifts: Registry,
    wereForms: Registry,
    renown: Registry,
    edges: Registry)

  /** The registries a type alias can name. */
  datatype Category =
    | ActorTypes | Attributes | Skills | Features | Disciplines
    | Gifts | WereForms | Renown | Edges | GroupTypes

  /** The registry a type alias names, if any; `None` for a type the
      dispatch does not recognise. */
  function CategoryOf(kind: string): (c: Option<Category>)
    ensures c.Some? <==> kind in KnownKinds
  {
    if kind == "actortypes" || kind == "actortype" then Some(ActorTypes)
    else if kind == "attributes" || kind == "attribute" then Some(Attributes)
    else if kind == "skills" || kind == "skill" then Some(Skills)
    else if kind == "features" || kind == "feature" then Some(Features)
    else if kind == "disciplines" || kind == "discipline" || kind == "power" then Some(Disciplines)
    else if kind == "gifts" || kind == "gift" then Some(Gifts)
    else if kind == "wereform" then Some(WereForms)
    else if kind == "renown" then Some(Renown)
    else if kind == "edges" || kind == "edge" || kind == "perk" || kind == "edgepool" then Some(Edges)
    else if kind == "grouptype" || kind == "group" then Some(GroupTypes)
    else None
  }

  /** Every type alias the dispatch recognises. */
  const KnownKinds: set<string> := {
    "actortypes", "actortype", "attributes", "attribute", "skills", "skill",
    "features", "feature", "disciplines", "discipline", "power", "gifts", "gift",
    "wereform", "renown", "edges", "edge", "perk", "edgepool", "grouptype", "group"}

  /** The group types table, built on each call. */
  function GroupTypeTable(localize: string -> string): (table: Registry)
    ensures table.Keys == {"cell", "coterie", "pack"}
    ensures table["cell"] == Entry(Some(localize("WOD5E.HTR.Cell")), None)
    ensures table["coterie"] == Entry(Some(localize("WOD5E.VTM.Coterie")), None)
    ensures table["pack"] == Entry(Some(localize("WOD5E.WTA.Pack")), None)
  {
    map[
      "cell" := Entry(Some(localize("WOD5E.HTR.Cell")), None),
      "coterie" := Entry(Some(localize("WOD5E.VTM.Coterie")), None),
      "pack" := Entry(Some(localize("WOD5E.WTA.Pack")), None)]
  }

  function RegistryOf(c: Category, registries: Registries, localize: string -> string): Registry {
    match c
    case ActorTypes => registries.actorTypes
    case Attributes => registries.attributes
    case Skills => registries.skills
    case Features => registries.features
    case Disciplines => registries.disciplines
    case Gifts => registries.gifts
    case WereForms => registries.wereForms
    case Renown => registries.renown
    case Edges => registries.edges
    case GroupTypes => GroupTypeTable(localize)
  }

  /** A present, non-empty string: a truthy property. */
  predicate Truthy(s: Option<string>) {
    s.Some? && s.value != ""
  }

  /** `findLabel`: the entry's `displayName` if truthy, else its `label` (`labelText`) if
      truthy, else the empty string. */
  function FindLabel(list: Registry, key: string): (text: string)
    ensures key !in list ==> text == ""
    ensures key in list && Truthy(list[key].displayName) ==> text == list[key].displayName.value
    ensures key in list && !Truthy(list[key].displayName) && Truthy(list[key].labelText) ==> text == list[key].labelText.value
    ensures text != "" ==> key in list && (Some(text) == list[key].displayName || Some(text) == list[key].labelText)
  {
    if key in list && Truthy(list[key].displayName) then list[key].displayName.value
    else if key in list && Truthy(list[key].labelText) then list[key].labelText.value
    else ""
  }

  /** `generateLocalizedLabel(string = '', type = '')`; `None` is an argument
      left out. */
  function GenerateLocalizedLabel(str: Option<string>, kind: Option<string>, registries: Registries,
                                  localize: string -> string): (text: string)
    ensures kind.GetOr("") !in KnownKinds ==> text == localize("WOD5E." + str.GetOr(""))
    ensures kind.GetOr("") in KnownKinds ==>
      text == FindLabel(RegistryOf(CategoryOf(kind.GetOr("")).value, registries, localize), str.GetOr(""))
  {
    var s := str.GetOr("");
    var t := kind.GetOr("");
    match CategoryOf(t)
    case Some(c) => FindLabel(RegistryOf(c, registries, localize), s)
    case None => localize("WOD5E." + s)
  }

  // ----- properties -----

  /** A type naming a registry reads that registry's label for the key. */
  lemma LabelOfCategory(str: Option<string>, kind: string, c: Category, registries: Registries,
                        localize: string -> string)
    requires CategoryOf(kind) == Some(c)
    ensures GenerateLocalizedLabel(str, Some(kind), registries, localize)
         == FindLabel(RegistryOf(c, registries, localize), str.GetOr(""))
  {
  }

  // Each alias of a registry reads that registry's label for the key.

  lemma ActorTypesAliases(str: Option<string>, registries: Registries, localize: string -> string)
    ensures GenerateLocalizedLabel(str, Some("actortypes"), registries, localize) == FindLabel(registries.actorTypes, str.GetOr(""))
    ensures GenerateLocalizedLabel(str, Some("actortype"), registries, localize) == FindLabel(registries.actorTypes, str.GetOr(""))
  {
    assert CategoryOf("actortypes") == Some(ActorTypes);
    LabelOfCategory(str, "actortypes", ActorTypes, registries, localize);
    assert CategoryOf("actortype") == Some(ActorTypes);
    LabelOfCategory(str, "actortype", ActorTypes, registries, localize);
  }

  lemma AttributesAliases(str: Option<string>, registries: Registries, localize: string -> string)
    ensures GenerateLocalizedLabel(str, Some("attributes"), registries, localize) == FindLabel(registries.attributes, str.GetOr(""))
    ensures GenerateLocalizedLabel(str, Some("attribute"), registries, localize) == FindLabel(registries.attributes, str.GetOr(""))
  {
    assert CategoryOf("attributes") == Some(Attributes);
    LabelOfCategory(str, "attributes", Attributes, registries, localize);
    assert CategoryOf("attribute") == Some(Attributes);
    LabelOfCategory(str, "attribute", Attributes, registries, localize);
  }

  lemma SkillsAliases(str: Option<string>, registries: Registries, localize: string -> string)
    ensures GenerateLocalizedLabel(str, Some("skills"), registries, localize) == FindLabel(registries.skills, str.GetOr(""))
    ensures GenerateLocalizedLabel(str, Some("skill"), registries, localize) == FindLabel(registries.skills, str.GetOr(""))
  {
    assert CategoryOf("skills") == Some(Skills);
    LabelOfCategory(str, "skills", Skills, registries, localize);
    assert CategoryOf("skill") == Some(Skills);
    LabelOfCategory(str, "skill", Skills, registries, localize);
  }

  lemma FeaturesAliases(str: Option<string>, registries: Registries, localize: string -> string)
    ensures GenerateLocalizedLabel(str, Some("features"), registries, localize) == FindLabel(registries.features, str.GetOr(""))
    ensures GenerateLocalizedLabel(str, Some("feature"), registries, localize) == FindLabel(registries.features, str.GetOr(""))
  {
    assert CategoryOf("features") == Some(Features);
    LabelOfCategory(str, "features", Features, registries, localize);
    assert CategoryOf("feature") == Some(Features);
    LabelOfCategory(str, "feature", Features, registries, localize);
  }

  lemma DisciplinesAliases(str: Option<string>, registries: Registries, localize: string -> string)
    ensures GenerateLocalizedLabel(str, Some("disciplines"), registries, localize) == FindLabel(registries.disciplines, str.GetOr(""))
    ensures GenerateLocalizedLabel(str, Some("discipline"), registries, localize) == FindLabel(registries.disciplines, str.GetOr(""))
    ensures GenerateLocalizedLabel(str, Some("power"), registries, localize) == FindLabel(registries.disciplines, str.GetOr(""))
  {
    assert CategoryOf("disciplines") == Some(Disciplines);
    LabelOfCategory(str, "disciplines", Disciplines, registries, localize);
    assert CategoryOf("discipline") == Some(Disciplines);
    LabelOfCategory(str, "discipline", Disciplines, registries, localize);
    assert CategoryOf("power") == Some(Disciplines);
    LabelOfCategory(str, "power", Disciplines, registries, localize);
  }

  lemma GiftsAliases(str: Option<string>, registries: Registries, localize: string -> string)
    ensures GenerateLocalizedLabel(str, Some("gifts"), registries, localize) == FindLabel(registries.gifts, str.GetOr(""))
    ensures GenerateLocalizedLabel(str, Some("gift"), registries, localize) == FindLabel(registries.gifts, str.GetOr(""))
  {
    assert CategoryOf("gifts") == Some(Gifts);
    LabelOfCategory(str, "gifts", Gifts, registries, localize);
    assert CategoryOf("gift") == Some(Gifts);
    LabelOfCategory(str, "gift", Gifts, registries, localize);
  }

  lemma WereFormsAliases(str: Option<string>, registries: Registries, localize: string -> string)
    ensures GenerateLocalizedLabel(str, Some("wereform"), registries, localize) == FindLabel(registries.wereForms, str.GetOr(""))
  {
    assert CategoryOf("wereform") == Some(WereForms);
    LabelOfCategory(str, "wereform", WereForms, registries, localize);
  }

  lemma RenownAliases(str: Option<string>, registries: Registries, localize: string -> string)
    ensures GenerateLocalizedLabel(str, Some("renown"), registries, localize) == FindLabel(registries.renown, str.GetOr(""))
  {
    assert CategoryOf("renown") == Some(Renown);
    LabelOfCategory(str, "renown", Renown, registries, localize);
  }

  lemma EdgesAliases(str: Option<string>, registries: Registries, localize: string -> string)
    ensures GenerateLocalizedLabel(str, Some("edges"), registries, localize) == FindLabel(registries.edges, str.GetOr(""))
    ensures GenerateLocalizedLabel(str, Some("edge"), registries, localize) == FindLabel(registries.edges, str.GetOr(""))
  {
    assert CategoryOf("edges") == Some(Edges);
    LabelOfCategory(str, "edges", Edges, registries, localize);
    assert CategoryOf("edge") == Some(Edges);
    LabelOfCategory(str, "edge", Edges, registries, localize);
  }

  /** Perks and edge pools are labelled from the edges registry. */
  lemma PerkAliases(str: Option<string>, registries: Registries, localize: string -> string)
    ensures GenerateLocalizedLabel(str, Some("perk"), registries, localize) == FindLabel(registries.edges, str.GetOr(""))
    ensures GenerateLocalizedLabel(str, Some("edgepool"), registries, localize) == FindLabel(registries.edges, str.GetOr(""))
  {
    assert CategoryOf("perk") == Some(Edges);
    LabelOfCategory(str, "perk", Edges, registries, localize);
    assert CategoryOf("edgepool") == Some(Edges);
    LabelOfCategory(str, "edgepool", Edges, registries, localize);
  }

  /** `grouptype` reads the table of group types. */
  lemma GroupTypeAlias(str: Option<string>, registries: Registries, localize: string -> string)
    ensures GenerateLocalizedLabel(str, Some("grouptype"), registries, localize) == FindLabel(GroupTypeTable(localize), str.GetOr(""))
  {
    assert CategoryOf("grouptype") == Some(GroupTypes);
    LabelOfCategory(str, "grouptype", GroupTypes, registries, localize);
  }

  /** `group` reads the table of group types. */
  lemma GroupAlias(str: Option<string>, registries: Registries, localize: string -> string)
    ensures GenerateLocalizedLabel(str, Some("group"), registries, localize) == FindLabel(GroupTypeTable(localize), str.GetOr(""))
  {
    assert CategoryOf("group") == Some(GroupTypes);
    LabelOfCategory(str, "group", GroupTypes, registries, localize);
  }

  /** A key a known registry lacks gives the empty string, not the fallback. */
  lemma MissingKeyIsEmpty(str: string, kind: string, registries: Registries, localize: string -> string)
    requires CategoryOf(kind).Some?
    requires str !in RegistryOf(CategoryOf(kind).value, registries, localize)
    ensures GenerateLocalizedLabel(Some(str), Some(kind), registries, localize) == ""
  {
  }

  /** A type that is not an alias falls back to localizing `WOD5E.<key>`. */
  lemma UnknownTypeFallsBack(str: Option<string>, kind: string, registries: Registries,
                             localize: string -> string)
    requires kind !in KnownKinds
    ensures GenerateLocalizedLabel(str, Some(kind), registries, localize) == localize("WOD5E." + str.GetOr(""))
  {
    assert CategoryOf(kind) == None;
  }

  /** With no arguments the label is the localization of `WOD5E.`. */
  lemma DefaultArguments(registries: Registries, localize: string -> string)
    ensures GenerateLocalizedLabel(None, None, registries, localize) == localize("WOD5E.")
  {
    assert CategoryOf("") == None;
    assert "WOD5E." + "" == "WOD5E.";
  }

  /** Only `cell`, `coterie` and `pack` are group types: any other key has
      no label. */
  lemma GroupTypesOnly(str: string, registries: Registries, localize: string -> string)
    requires str !in {"cell", "coterie", "pack"}
    ensures GenerateLocalizedLabel(Some(str), Some("group"), registries, localize) == ""
  {
    GroupAlias(Some(str), registries, localize);
  }

  /** A group type shows its localized name when that is not empty. */
  lemma PackLabel(registries: Registries, localize: string -> string)
    requires localize("WOD5E.WTA.Pack") != ""
    ensures GenerateLocalizedLabel(Some("pack"), Some("grouptype"), registries, localize) == localize("WOD5E.WTA.Pack")
  {
    GroupTypeAlias(Some("pack"), registries, localize);
  }
}
