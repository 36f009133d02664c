/**
 * The type registry of the converter (src/utils/n8n-converter.ts): the two
 * tables between builder type tags and engine type identifiers, and the
 * lookups that use them.
 */
module NodeTypeRegistry {
  import opened Wrappers
  import opened Seqs
  import opened Strings

  // ---------------------------------------------------------------------------
  // Type tables

  /** The package that prefixes every engine type identifier the tables use. */
  const BasePackage: string := "n8n-nodes-base"

  /** The identifier of the base package's engine type `name`. */
  function BaseType(name: string): string
  {
    BasePackage + "." + name
  }

  /** `NODE_TYPE_MAP`: builder type tag to engine type identifier. */
  const NodeTypeMap: map<string, string> := map[
    "webhook" := BaseType("webhook"),
    "database" := BaseType("postgres"),
    "email" := BaseType("emailSend"),
    "file" := BaseType("readBinaryFile"),
    "schedule" := BaseType("scheduleTrigger"),
    "action" := BaseType("set")
  ]

  /** `N8N_TYPE_MAP`, as its entries in declaration order (the order `Object.entries` yields). */
  const N8nTypeMap: seq<(string, string)> := [
    (BaseType("webhook"), "webhook"),
    (BaseType("postgres"), "database"),
    (BaseType("emailSend"), "email"),
    (BaseType("readBinaryFile"), "file"),
    (BaseType("scheduleTrigger"), "schedule"),
    (BaseType("set"), "action")
  ]

  /** The engine type used for any tag the forward table does not know. */
  const DefaultEngineType := BaseType("set")

  /** The builder tag used for any engine type the reverse lookup does not recognise. */
  const DefaultNodeType := "action"

  /** The forward mapping (`NODE_TYPE_MAP[tag] || 'n8n-nodes-base.set'`): total, into the known engine types. */
  function ToEngineType(tag: string): (r: string)
    ensures r in NodeTypeMap.Values
    ensures tag in NodeTypeMap ==> r == NodeTypeMap[tag]
    ensures tag !in NodeTypeMap ==> r == DefaultEngineType
  {
    assert NodeTypeMap["action"] == DefaultEngineType;
    if tag in NodeTypeMap && NodeTypeMap[tag] != "" then NodeTypeMap[tag] else DefaultEngineType
  }

  /** `key.split('.')[1]`, which JavaScript turns into "undefined" when there is no second part. */
  function KeySuffix(key: string): string
  {
    var parts := Split(key, '.');
    if |parts| > 1 then parts[1] else "undefined"
  }

  /** Whether a reverse-table entry matches `engineType`: its key's suffix occurs in it. */
  function EntryMatches(engineType: string): ((string, string)) -> bool
  {
    (entry: (string, string)) => Contains(engineType, KeySuffix(entry.0))
  }

  /**
   * The reverse mapping: the builder tag of the first entry, in declaration
   * order, whose suffix is a substring of `engineType`, else "action".
   */
  function ToNodeType(engineType: string): (r: string)
    ensures FirstIndex(N8nTypeMap, EntryMatches(engineType)).None? ==> r == DefaultNodeType
    ensures FirstIndex(N8nTypeMap, EntryMatches(engineType)).Some? ==>
      r == N8nTypeMap[FirstIndex(N8nTypeMap, EntryMatches(engineType)).value].1
  {
    match FirstIndex(N8nTypeMap, EntryMatches(engineType))
    case Some(i) =>
      TagNonEmpty(i);
      if N8nTypeMap[i].1 != "" then N8nTypeMap[i].1 else DefaultNodeType
    case None => DefaultNodeType
  }

  /** The suffix of an engine type identifier of the base package. */
  lemma KeySuffixOfBaseType(name: string)
    requires '.' !in name
    ensures KeySuffix(BaseType(name)) == name
  {
    SplitOnce(BasePackage, '.', name);
  }

  /** An engine type of the base package is matched by the entry whose suffix is its name. */
  lemma BaseTypeMatches(name: string, i: nat)
    requires i < |N8nTypeMap| && N8nTypeMap[i].0 == BaseType(name) && '.' !in name
    ensures EntryMatches(BaseType(name))(N8nTypeMap[i])
  {
    KeySuffixOfBaseType(name);
    ContainsInfix(BasePackage + ".", name, "");
    assert BaseType(name) == BasePackage + "." + name + "";
  }

  /** The suffixes of the reverse table's keys, in its order. */
  const SuffixNames: seq<string> := ["webhook", "postgres", "emailSend", "readBinaryFile", "scheduleTrigger", "set"]

  /** For each entry but the last, a letter of its suffix that no later entry's suffix contains. */
  const Telltales: seq<char> := ['w', 'p', 'm', 'y', 'h']

  /** The reverse table's keys are the base-package types named by `SuffixNames`. */
  lemma TableKey(j: nat)
    requires j < |N8nTypeMap|
    ensures j < |SuffixNames| && N8nTypeMap[j].0 == BaseType(SuffixNames[j]) && '.' !in SuffixNames[j]
  {
  }

  /** Each telltale letter belongs to its own suffix, to no later one, and not to the package prefix. */
  lemma TelltaleOf(j: nat, i: nat)
    requires j < i < |SuffixNames|
    ensures Telltales[j] in SuffixNames[j] && Telltales[j] !in SuffixNames[i]
    ensures Telltales[j] !in BasePackage + "."
  {
  }

  /**
   * An engine type of the base package lacking a letter of an entry's suffix is
   * not matched by that entry.
   */
  lemma BaseTypeMisses(name: string, j: nat, telltale: char)
    requires j < |N8nTypeMap| && telltale in SuffixNames[j] && telltale !in name
    requires telltale !in BasePackage + "."
    ensures !EntryMatches(BaseType(name))(N8nTypeMap[j])
  {
    TableKey(j);
    KeySuffixOfBaseType(SuffixNames[j]);
    assert BaseType(name) == (BasePackage + ".") + name;
    NotContainsMissingChar(BaseType(name), SuffixNames[j], telltale);
  }

  /** The base-package type named by the `i`-th suffix is matched first by the `i`-th entry. */
  lemma OwnEntryMatchesFirst(i: nat)
    requires i < |N8nTypeMap|
    ensures FirstIndex(N8nTypeMap, EntryMatches(BaseType(SuffixNames[i]))) == Some(i)
  {
    var name := SuffixNames[i];
    forall j | 0 <= j < i
      ensures !EntryMatches(BaseType(name))(N8nTypeMap[j])
    {
      TelltaleOf(j, i);
      BaseTypeMisses(name, j, Telltales[j]);
    }
    TableKey(i);
    BaseTypeMatches(name, i);
    FirstIndexIs(N8nTypeMap, EntryMatches(BaseType(name)), i);
  }

  /** Reverse-mapping a key of the reverse table gives that entry's tag. */
  lemma ReverseOfEntry(i: nat)
    requires i < |N8nTypeMap|
    ensures ToNodeType(N8nTypeMap[i].0) == N8nTypeMap[i].1
  {
    var e := N8nTypeMap[i].0;
    assert FirstIndex(N8nTypeMap, EntryMatches(e)) == Some(i) by {
      TableKey(i);
      OwnEntryMatchesFirst(i);
    }
    TablesAgree(i);
  }

  /** No tag of the reverse table is empty, so its `|| 'action'` never applies. */
  lemma TagNonEmpty(i: nat)
    requires i < |N8nTypeMap|
    ensures N8nTypeMap[i].1 != ""
  {
  }

  /** The two tables agree: each reverse entry inverts a forward entry. */
  lemma TablesAgree(i: nat)
    requires i < |N8nTypeMap|
    ensures N8nTypeMap[i].1 in NodeTypeMap && NodeTypeMap[N8nTypeMap[i].1] == N8nTypeMap[i].0
    ensures N8nTypeMap[i].1 != ""
  {
  }

  /** Every tag of the forward table has an entry in the reverse table. */
  lemma TagIndex(tag: string) returns (i: nat)
    requires tag in NodeTypeMap
    ensures i < |N8nTypeMap| && N8nTypeMap[i].1 == tag
  {
    i := if tag == "webhook" then 0
      else if tag == "database" then 1
      else if tag == "email" then 2
      else if tag == "file" then 3
      else if tag == "schedule" then 4
      else 5;
  }

  /**
   * Forward then reverse mapping gives back every tag of the table, and
   * "action" for every other tag.
   */
  lemma TypeRoundTrip(tag: string)
    ensures ToNodeType(ToEngineType(tag)) == if tag in NodeTypeMap then tag else DefaultNodeType
  {
    if tag in NodeTypeMap {
      var i := TagIndex(tag);
      TablesAgree(i);
      ReverseOfEntry(i);
    } else {
      ReverseOfEntry(5);
    }
  }

  /**
   * The reverse lookup is by substring, first entry wins: a base-package type
   * whose name contains the `i`-th suffix and none of the letters that mark
   * the earlier suffixes maps to the `i`-th tag.
   */
  lemma ReverseLookupBySuffix(name: string, i: nat)
    requires i < |N8nTypeMap| && Contains(name, SuffixNames[i])
    requires forall j :: 0 <= j < i ==> Telltales[j] !in name
    ensures ToNodeType(BaseType(name)) == N8nTypeMap[i].1
  {
    var p := EntryMatches(BaseType(name));
    assert FirstIndex(N8nTypeMap, p) == Some(i) by {
      forall j | 0 <= j < i
        ensures !p(N8nTypeMap[j])
      {
        TelltaleOf(j, i);
        BaseTypeMisses(name, j, Telltales[j]);
      }
      assert p(N8nTypeMap[i]) by {
        TableKey(i);
        KeySuffixOfBaseType(SuffixNames[i]);
        PrefixKeepsContains(BasePackage + ".", name, SuffixNames[i]);
      }
      FirstIndexIs(N8nTypeMap, p, i);
    }
    TablesAgree(i);
  }

  /** The reverse mapping always yields a tag the forward table knows. */
  lemma ToNodeTypeKnown(engineType: string)
    ensures ToNodeType(engineType) in NodeTypeMap
  {
    match FirstIndex(N8nTypeMap, EntryMatches(engineType))
    case Some(i) => TablesAgree(i);
    case None => TablesAgree(5);
  }

  /** The engine type a tag maps to is one of the reverse table's keys. */
  lemma EngineTypeIndex(tag: string) returns (i: nat)
    ensures i < |N8nTypeMap| && N8nTypeMap[i].0 == ToEngineType(tag)
  {
    var known := if tag in NodeTypeMap then tag else DefaultNodeType;
    i := TagIndex(known);
    TablesAgree(i);
  }

  /** Every engine type a tag maps to is a base-package type with a non-empty, dot-free name. */
  lemma EngineSuffix(tag: string) returns (suffix: string)
    ensures ToEngineType(tag) == BaseType(suffix) && '.' !in suffix && suffix != ""
  {
    var i := EngineTypeIndex(tag);
    TableKey(i);
    SuffixNonEmpty(i);
    suffix := SuffixNames[i];
  }

  /** No suffix of the reverse table is empty. */
  lemma SuffixNonEmpty(i: nat)
    requires i < |SuffixNames|
    ensures SuffixNames[i] != ""
  {
  }
}
