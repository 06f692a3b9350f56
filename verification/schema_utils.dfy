/** `schemaUtils.ts`: building a field map from the visual field collection,
    turning a field map into the provider's strict `json_schema` response format,
    and parsing the page-selection expression. */
module SchemaUtils {
  import opened Wrappers
  import opened Text
  import opened OrderedMap
  import opened Types
  import opened JsNumbers

  // ---------------------------------------------------------------------------
  // Field collection
  // ---------------------------------------------------------------------------

  /** The `fieldName` choice meaning "use `customFieldName` instead". */
  const CustomFieldSentinel: string := "__custom__"

  /** One row of the `customFields.field` collection. A text the user left unset is "". */
  datatype CollectionEntry = CollectionEntry(
    fieldName: string, customFieldName: string, fieldType: string, description: string, required: bool)

  /** The `customFields` parameter: `FieldList` when its `field` property is an array,
      `NoFieldList` when the parameter or its `field` is missing or not an array. */
  datatype CollectionInput = NoFieldList | FieldList(entries: seq<CollectionEntry>)

  /** The key an entry declares: `customFieldName` behind the sentinel, else `fieldName`. */
  function ResolvedName(e: CollectionEntry): string {
    if e.fieldName == CustomFieldSentinel then e.customFieldName else e.fieldName
  }

  /** Entries with an empty name, type or description are skipped. */
  predicate IsComplete(e: CollectionEntry) {
    ResolvedName(e) != "" && e.fieldType != "" && e.description != ""
  }

  /** The declaration a complete entry assigns; its `required` flag is not part of it. */
  function EntrySpec(e: CollectionEntry): FieldSpec {
    FieldSpec(e.fieldType, e.description, if e.fieldType == "array" then Some(StringItems) else None)
  }

  /** Array fields carry string items and no other field carries items. */
  predicate ItemsFollowType(spec: FieldSpec) {
    spec.items == (if spec.jsonType == "array" then Some(StringItems) else None)
  }

  /** The keys the complete entries assign, in collection order, repeats included. */
  function AssignedNames(es: seq<CollectionEntry>): seq<string>
    decreases |es|
  {
    if |es| == 0 then []
    else
      var e := es[|es| - 1];
      AssignedNames(es[..|es| - 1]) + (if IsComplete(e) then [ResolvedName(e)] else [])
  }

  /** `xs` with every element kept only where it first occurs. */
  function Dedup(xs: seq<string>): (r: seq<string>)
    ensures forall x :: x in r <==> x in xs
    ensures Distinct(r)
    decreases |xs|
  {
    if |xs| == 0 then []
    else
      var init := xs[..|xs| - 1];
      var x := xs[|xs| - 1];
      var d := Dedup(init);
      assert xs == init + [x];
      if x in d then d else d + [x]
  }

  /** `Dedup` keeps the elements in the order of their first occurrences, as a
      subsequence of its input. */
  lemma DedupKeepsFirstOrder(xs: seq<string>)
    ensures IsSubsequence(Dedup(xs), xs)
    ensures forall i, j :: 0 <= i < j < |Dedup(xs)| ==> FirstIndex(xs, Dedup(xs)[i]) < FirstIndex(xs, Dedup(xs)[j])
  {
    DedupSubsequence(xs);
    DedupFirstOrder(xs);
  }

  lemma {:induction false} DedupSubsequence(xs: seq<string>)
    ensures IsSubsequence(Dedup(xs), xs)
    decreases |xs|
  {
    if |xs| > 0 {
      var init := xs[..|xs| - 1];
      var d := Dedup(init);
      DedupSubsequence(init);
      if xs[|xs| - 1] !in d {
        var r := d + [xs[|xs| - 1]];
        assert r[..|r| - 1] == d;
      }
    }
  }

  lemma {:induction false} DedupFirstOrder(xs: seq<string>)
    ensures forall i, j :: 0 <= i < j < |Dedup(xs)| ==> FirstIndex(xs, Dedup(xs)[i]) < FirstIndex(xs, Dedup(xs)[j])
    decreases |xs|
  {
    if |xs| > 0 {
      var init := xs[..|xs| - 1];
      var x := xs[|xs| - 1];
      var d := Dedup(init);
      var r := Dedup(xs);
      DedupFirstOrder(init);
      assert xs == init + [x];
      forall i, j | 0 <= i < j < |r|
        ensures FirstIndex(xs, r[i]) < FirstIndex(xs, r[j])
      {
        FirstIndexInit(xs, r[i]);
        if j < |d| {
          assert r[i] == d[i] && r[j] == d[j];
          FirstIndexInit(xs, r[j]);
        } else {
          assert r[j] == x && x !in init;
          assert FirstIndex(xs, x) == |xs| - 1;
        }
      }
    }
  }

  /** The position of the first occurrence of `x` in `xs`. */
  function FirstIndex(xs: seq<string>, x: string): (r: nat)
    requires x in xs
    ensures r < |xs| && xs[r] == x
    ensures forall k :: 0 <= k < r ==> xs[k] != x
    decreases |xs|
  {
    if xs[0] == x then 0 else 1 + FirstIndex(xs[1..], x)
  }

  /** Appending to a sequence does not move the first occurrences already in it. */
  lemma FirstIndexInit(xs: seq<string>, x: string)
    requires |xs| > 0 && x in xs[..|xs| - 1]
    ensures FirstIndex(xs, x) == FirstIndex(xs[..|xs| - 1], x)
  {
    var a := FirstIndex(xs, x);
    var b := FirstIndex(xs[..|xs| - 1], x);
    assert xs[b] == x;
    assert a <= b;
    assert xs[..|xs| - 1][a] == x;
  }

  /** Reference for one key: the declaration of the LAST complete entry resolving to it. */
  function LastSpec(es: seq<CollectionEntry>, k: string): Option<FieldSpec>
    decreases |es|
  {
    if |es| == 0 then None
    else
      var e := es[|es| - 1];
      if IsComplete(e) && ResolvedName(e) == k then Some(EntrySpec(e)) else LastSpec(es[..|es| - 1], k)
  }

  /** The loop of `buildCustomFieldsFromCollection` over the entries: each complete
      entry assigns `schema[name]`, a repeated name overwriting in place. */
  function Collect(es: seq<CollectionEntry>): (r: FieldMap)
    ensures Keys(r) == Dedup(AssignedNames(es))
    decreases |es|
  {
    if |es| == 0 then []
    else
      var prev := Collect(es[..|es| - 1]);
      var e := es[|es| - 1];
      if IsComplete(e) then Put(prev, ResolvedName(e), EntrySpec(e))
      else
        assert AssignedNames(es) == AssignedNames(es[..|es| - 1]);
        prev
  }

  /** Looking a key up in the collected map gives the last complete declaration of it. */
  lemma {:induction false} CollectGet(es: seq<CollectionEntry>, k: string)
    ensures Get(Collect(es), k) == LastSpec(es, k)
    decreases |es|
  {
    if |es| > 0 {
      var e := es[|es| - 1];
      CollectGet(es[..|es| - 1], k);
      if IsComplete(e) && ResolvedName(e) != k {
        GetPutOther(Collect(es[..|es| - 1]), ResolvedName(e), EntrySpec(e), k);
      }
    }
  }

  lemma CollectGetAll(es: seq<CollectionEntry>)
    ensures forall k :: Get(Collect(es), k) == LastSpec(es, k)
  {
    forall k {
      CollectGet(es, k);
    }
  }

  /** `buildCustomFieldsFromCollection(customFields)` */
  function BuildCustomFieldsFromCollection(input: CollectionInput): (r: FieldMap)
    ensures input.NoFieldList? ==> r == []
    ensures input.FieldList? ==> Keys(r) == Dedup(AssignedNames(input.entries))
    ensures forall k :: Get(r, k) == (if input.FieldList? then LastSpec(input.entries, k) else None)
  {
    match input
    case NoFieldList => []
    case FieldList(es) => CollectGetAll(es); Collect(es)
  }

  /** A key is present exactly when some complete entry resolves to it. */
  lemma {:induction false} AssignedNamesSpec(es: seq<CollectionEntry>, k: string)
    ensures k in AssignedNames(es) <==> exists j :: 0 <= j < |es| && IsComplete(es[j]) && ResolvedName(es[j]) == k
    decreases |es|
  {
    if |es| > 0 {
      AssignedNamesSpec(es[..|es| - 1], k);
      assert forall j :: 0 <= j < |es| - 1 ==> es[..|es| - 1][j] == es[j];
    }
  }

  /** Last write wins: the value stored under a key is the declaration of the last
      complete entry resolving to it. */
  lemma {:induction false} LastWriteWins(es: seq<CollectionEntry>, j: nat)
    requires j < |es| && IsComplete(es[j])
    requires forall j' :: j < j' < |es| ==> !(IsComplete(es[j']) && ResolvedName(es[j']) == ResolvedName(es[j]))
    ensures Get(BuildCustomFieldsFromCollection(FieldList(es)), ResolvedName(es[j])) == Some(EntrySpec(es[j]))
    decreases |es|
  {
    if j < |es| - 1 {
      var init := es[..|es| - 1];
      LastWriteWins(init, j);
      CollectGet(init, ResolvedName(es[j]));
      CollectGet(es, ResolvedName(es[j]));
    } else {
      CollectGet(es, ResolvedName(es[j]));
    }
  }

  /** Every collected declaration of type array has `items = {type: 'string'}`, and no other has items. */
  lemma {:induction false} LastSpecItems(es: seq<CollectionEntry>, k: string)
    ensures LastSpec(es, k).Some? ==> ItemsFollowType(LastSpec(es, k).value)
    decreases |es|
  {
    if |es| > 0 {
      LastSpecItems(es[..|es| - 1], k);
    }
  }

  lemma CollectionItemsFollowType(input: CollectionInput, k: string)
    ensures Get(BuildCustomFieldsFromCollection(input), k).Some? ==>
      ItemsFollowType(Get(BuildCustomFieldsFromCollection(input), k).value)
  {
    if input.FieldList? {
      LastSpecItems(input.entries, k);
    }
  }

  // ---------------------------------------------------------------------------
  // The `required` list
  // ---------------------------------------------------------------------------

  /** `customFieldsConfig.field.find(f => resolvedName(f) === key)`: the FIRST entry
      resolving to the key, whether complete or not. */
  function FindByName(es: seq<CollectionEntry>, k: string): (r: Option<CollectionEntry>)
    ensures r.Some? ==> exists j :: 0 <= j < |es| && es[j] == r.value && ResolvedName(es[j]) == k
                          && forall j' :: 0 <= j' < j ==> ResolvedName(es[j']) != k
    ensures r.None? ==> forall j :: 0 <= j < |es| ==> ResolvedName(es[j]) != k
    decreases |es|
  {
    if |es| == 0 then None
    else if ResolvedName(es[0]) == k then Some(es[0])
    else
      var r := FindByName(es[1..], k);
      assert forall j :: 1 <= j < |es| ==> es[j] == es[1..][j - 1];
      r
  }

  /** `customField && customField.required === true` */
  predicate IsMarkedRequired(config: CollectionInput, k: string) {
    config.FieldList? && FindByName(config.entries, k).Some? && FindByName(config.entries, k).value.required
  }

  /** `a` is `b` with some elements left out, the rest in order. */
  predicate IsSubsequence(a: seq<string>, b: seq<string>)
    decreases |b|
  {
    |a| == 0 ||
    (|b| > 0 &&
      ((a[|a| - 1] == b[|b| - 1] && IsSubsequence(a[..|a| - 1], b[..|b| - 1])) || IsSubsequence(a, b[..|b| - 1])))
  }

  /** The keys, in key order, that the configuration marks required. */
  function RequiredKeys(keys: seq<string>, config: CollectionInput): (r: seq<string>)
    ensures forall k :: k in r <==> k in keys && IsMarkedRequired(config, k)
    ensures IsSubsequence(r, keys)
    ensures Distinct(keys) ==> Distinct(r)
    ensures config.NoFieldList? ==> r == []
    decreases |keys|
  {
    if |keys| == 0 then []
    else
      var init := keys[..|keys| - 1];
      var k := keys[|keys| - 1];
      assert keys == init + [k];
      var prev := RequiredKeys(init, config);
      if IsMarkedRequired(config, k) then
        assert prev[..|prev + [k]| - 1] == prev;
        assert Distinct(keys) ==> k !in init;
        prev + [k]
      else
        assert |prev| > 0 ==> IsSubsequence(prev, keys) by {
          if |prev| > 0 {
            assert prev[|prev| - 1] != k;
          }
        }
        prev
  }

  // ---------------------------------------------------------------------------
  // Titles
  // ---------------------------------------------------------------------------

  /** `word.charAt(0).toUpperCase() + word.slice(1)` */
  function Capitalize(word: string): (r: string)
    ensures |r| == |word|
  {
    if |word| == 0 then "" else [UpperChar(word[0])] + word[1..]
  }

  function CapitalizeAll(words: seq<string>): (r: seq<string>)
    ensures |r| == |words|
    ensures forall i :: 0 <= i < |words| ==> r[i] == Capitalize(words[i])
  {
    seq(|words|, i requires 0 <= i < |words| => Capitalize(words[i]))
  }

  /** The `title` of a property: `key.split('_').map(capitalize).join('_')`. */
  function Title(key: string): string {
    Join(CapitalizeAll(Split(key, '_')), '_')
  }

  /** Position `i` begins a `_`-separated word of `s`. */
  predicate StartsWord(s: string, i: nat)
    requires i < |s|
  {
    i == 0 || s[i - 1] == '_'
  }

  /** Reference title: upper-case each character that begins a word, keep the rest. */
  predicate IsTitleOf(t: string, key: string) {
    |t| == |key| &&
    forall i :: 0 <= i < |key| ==> t[i] == (if StartsWord(key, i) then UpperChar(key[i]) else key[i])
  }

  lemma {:induction false} JoinCapitalized(parts: seq<string>)
    requires forall i :: 0 <= i < |parts| ==> '_' !in parts[i]
    ensures IsTitleOf(Join(CapitalizeAll(parts), '_'), Join(parts, '_'))
    decreases |parts|
  {
    if |parts| >= 2 {
      var rest := parts[1..];
      JoinCapitalized(rest);
      var p := parts[0];
      var j' := Join(rest, '_');
      var t' := Join(CapitalizeAll(rest), '_');
      assert CapitalizeAll(parts)[1..] == CapitalizeAll(rest);
      var j := Join(parts, '_');
      var t := Join(CapitalizeAll(parts), '_');
      assert j == p + ['_'] + j';
      assert t == Capitalize(p) + ['_'] + t';
      forall i | 0 <= i < |j|
        ensures t[i] == (if StartsWord(j, i) then UpperChar(j[i]) else j[i])
      {
        if i < |p| {
          assert t[i] == Capitalize(p)[i];
          assert 0 < i ==> j[i - 1] == p[i - 1];
        } else if i == |p| {
          assert t[i] == '_' && j[i] == '_';
        } else {
          assert t[i] == t'[i - |p| - 1] && j[i] == j'[i - |p| - 1];
          assert j[i - 1] == (if i - 1 == |p| then '_' else j'[i - |p| - 2]);
        }
      }
    } else if |parts| == 1 {
      assert Join(parts, '_') == parts[0];
      assert Join(CapitalizeAll(parts), '_') == Capitalize(parts[0]);
      forall j | 0 <= j < |parts[0]|
        ensures parts[0][j] != '_'
      {
        assert parts[0][j] in parts[0];
      }
    }
  }

  /** The title capitalises exactly the first character of every `_`-separated word
      (`total_amount` becomes `Total_Amount`). */
  lemma TitleCapitalizesWords(key: string)
    ensures IsTitleOf(Title(key), key)
  {
    JoinSplit(key, '_');
    JoinCapitalized(Split(key, '_'));
  }

  /** The title has the key's length and the key's `_` positions. */
  lemma TitleKeepsShape(key: string)
    ensures |Title(key)| == |key|
    ensures forall i :: 0 <= i < |key| ==> (Title(key)[i] == '_' <==> key[i] == '_')
  {
    TitleCapitalizesWords(key);
  }

  /** Titling a title changes nothing. */
  lemma TitleIdempotent(key: string)
    ensures Title(Title(key)) == Title(key)
  {
    var t := Title(key);
    TitleCapitalizesWords(key);
    TitleCapitalizesWords(t);
    assert forall i :: 0 <= i < |key| ==> (t[i] == '_' <==> key[i] == '_');
  }

  /** A title is determined by its key. */
  lemma TitleOfUnique(t1: string, t2: string, key: string)
    requires IsTitleOf(t1, key) && IsTitleOf(t2, key)
    ensures t1 == t2
  {
  }

  lemma TitleOfTotalAmount(t: string)
    requires IsTitleOf(t, "total_amount")
    ensures t == "Total_Amount"
  {
    assert |t| == 12;
    assert t[0] == 'T';
  }

  lemma TitleExample()
    ensures Title("total_amount") == "Total_Amount"
  {
    TitleCapitalizesWords("total_amount");
    TitleOfTotalAmount(Title("total_amount"));
  }

  // ---------------------------------------------------------------------------
  // buildJsonSchema
  // ---------------------------------------------------------------------------

  /** The schema of one property, built from its key and declaration. */
  function PropertyFor(key: string, spec: FieldSpec): PropertySchema {
    PropertySchema(
      spec.jsonType,
      Title(key),
      if spec.description != "" then Some(spec.description) else None,
      if spec.jsonType == "array" && spec.items.Some? then spec.items else None)
  }

  /** What a property says about its field: the declared type, the key's title, the
      description exactly when it is non-empty, the items exactly for an array that has them. */
  predicate Describes(p: PropertySchema, key: string, spec: FieldSpec) {
    && p.jsonType == spec.jsonType
    && IsTitleOf(p.title, key)
    && (p.description.Some? <==> spec.description != "")
    && (p.description.Some? ==> p.description.value == spec.description)
    && (p.items.Some? <==> spec.jsonType == "array" && spec.items.Some?)
    && (p.items.Some? ==> p.items == spec.items)
  }

  /** `properties`, one entry per field in key order. */
  function BuildProperties(m: FieldMap): (props: OMap<PropertySchema>)
    ensures Keys(props) == Keys(m)
    ensures forall i :: 0 <= i < |m| ==> Describes(props[i].1, m[i].0, m[i].1)
  {
    var p := seq(|m|, i requires 0 <= i < |m| => (m[i].0, PropertyFor(m[i].0, m[i].1)));
    assert Keys(p) == Keys(m);
    forall i | 0 <= i < |m| {
      TitleCapitalizesWords(m[i].0);
    }
    p
  }

  /** `buildJsonSchema(schemaObj, schemaName, customFieldsConfig)`: the strict response
      format the provider expects, for every input. */
  function BuildJsonSchema(m: FieldMap, schemaName: string, config: CollectionInput): (r: ResponseFormat)
    ensures r.formatType == "json_schema"
    ensures r.jsonSchema.strict && r.jsonSchema.name == ToLower(schemaName)
    ensures r.jsonSchema.schema.jsonType == "object" && !r.jsonSchema.schema.additionalProperties
    ensures r.jsonSchema.schema.title == schemaName
    ensures Keys(r.jsonSchema.schema.properties) == Keys(m)
    ensures forall i :: 0 <= i < |m| ==> Describes(r.jsonSchema.schema.properties[i].1, m[i].0, m[i].1)
    ensures forall k :: k in r.jsonSchema.schema.required <==> k in Keys(m) && IsMarkedRequired(config, k)
    ensures IsSubsequence(r.jsonSchema.schema.required, Keys(m)) && Distinct(r.jsonSchema.schema.required)
    ensures config.NoFieldList? ==> r.jsonSchema.schema.required == []
  {
    var properties := BuildProperties(m);
    var required := RequiredKeys(Keys(m), config);
    ResponseFormat("json_schema", JsonSchemaSpec(
      ObjectSchema(properties, required, schemaName, "object", false),
      ToLower(schemaName),
      true))
  }

  /** The property `foo: {type: 'string', description: 'd'}` under the name `Doc`. */
  lemma BuildJsonSchemaExample()
    ensures var r := BuildJsonSchema([("foo", FieldSpec("string", "d", None))], "Doc", NoFieldList);
      && r.jsonSchema.schema.properties == [("foo", PropertySchema("string", "Foo", Some("d"), None))]
      && r.jsonSchema.name == "doc"
  {
    TitleCapitalizesWords("foo");
    assert IsTitleOf("Foo", "foo");
    TitleOfUnique(Title("foo"), "Foo", "foo");
  }

  // ---------------------------------------------------------------------------
  // parsePages
  // ---------------------------------------------------------------------------

  /** `Array.from({length: end - start + 1}, (_, i) => start + i)`: a negative length is
      clamped to 0, so an inverted range is empty. */
  function RangeList(start: int, end: int): (r: seq<int>)
    ensures |r| == if start <= end then end - start + 1 else 0
    ensures forall i :: 0 <= i < |r| ==> r[i] == start + i
  {
    if end < start then [] else seq(end - start + 1, i requires 0 <= i < end - start + 1 => start + i)
  }

  /** `pagesStr.split('-').map(Number)`, of which only the first two values are read. */
  function RangeBounds(s: string): (Num, Num)
    requires '-' in s
  {
    var parts := Split(s, '-');
    (StringToNumber(parts[0]), StringToNumber(parts[1]))
  }

  /** The value a comma-separated token contributes: `Number.parseInt(token.trim())`. */
  function TokenValue(token: string): Num {
    ParseInt(Trim(token))
  }

  /** What one token adds to the comma branch's result: its value, or nothing for NaN. */
  function Contribution(t: string): seq<int> {
    match TokenValue(t)
    case Int(v) => [v]
    case NaN => []
  }

  /** `.map(parse).filter(n => !Number.isNaN(n))` over the comma-separated tokens. */
  function KeepParsed(tokens: seq<string>): (r: seq<int>)
    ensures |r| <= |tokens|
    decreases |tokens|
  {
    if |tokens| == 0 then []
    else KeepParsed(tokens[..|tokens| - 1]) + Contribution(tokens[|tokens| - 1])
  }

  /** `parsePages(pagesStr)` */
  function ParsePages(s: string): (r: seq<int>)
    ensures s == "" ==> r == []
    ensures '-' in s ==> (RangeBounds(s).0.NaN? || RangeBounds(s).1.NaN?) ==> r == []
    ensures '-' in s && RangeBounds(s).0.Int? && RangeBounds(s).1.Int? ==>
      var a, b := RangeBounds(s).0.value, RangeBounds(s).1.value;
      && |r| == (if a <= b then b - a + 1 else 0)
      && forall i :: 0 <= i < |r| ==> r[i] == a + i
    ensures s != "" && '-' !in s ==> |r| <= |Split(s, ',')|
  {
    if s == "" then []
    else if '-' in s then
      match RangeBounds(s)
      case (Int(a), Int(b)) => RangeList(a, b)
      case _ => []
    else KeepParsed(Split(s, ','))
  }

  /** The comma branch keeps token order: parsing a concatenation of token lists
      concatenates their results. */
  lemma ConcatInit<T>(a: seq<T>, b: seq<T>)
    requires |b| > 0
    ensures (a + b)[..|a + b| - 1] == a + b[..|b| - 1]
    ensures (a + b)[|a + b| - 1] == b[|b| - 1]
  {
  }

  lemma {:induction false} KeepParsedConcat(a: seq<string>, b: seq<string>)
    ensures KeepParsed(a + b) == KeepParsed(a) + KeepParsed(b)
    decreases |b|
  {
    if |b| > 0 {
      var b' := b[..|b| - 1];
      KeepParsedConcat(a, b');
      ConcatInit(a, b);
    } else {
      assert a + b == a;
    }
  }

  /** Each token contributes its leading integer, or nothing when it has none; with
      `KeepParsedConcat` this says duplicates and order are preserved. */
  lemma KeepParsedSingle(t: string)
    ensures KeepParsed([t]) == (if TokenValue(t).Int? then [TokenValue(t).value] else [])
  {
    assert [t][..0] == [];
    assert KeepParsed([t]) == KeepParsed([]) + Contribution(t);
  }

  /** Every value in the comma branch's result comes from some token. */
  lemma {:induction false} KeepParsedSound(tokens: seq<string>, x: int)
    requires x in KeepParsed(tokens)
    ensures exists t :: t in tokens && TokenValue(t) == Int(x)
    decreases |tokens|
  {
    var init := tokens[..|tokens| - 1];
    var last := tokens[|tokens| - 1];
    if x in KeepParsed(init) {
      KeepParsedSound(init, x);
      var t :| t in init && TokenValue(t) == Int(x);
      assert t in tokens;
    } else {
      assert last in tokens;
    }
  }

  /** No token with a leading integer is dropped. */
  lemma KeepParsedComplete(tokens: seq<string>, t: string)
    requires t in tokens && TokenValue(t).Int?
    ensures TokenValue(t).value in KeepParsed(tokens)
  {
    ContributionOfNumber(t);
    ContributionKept(tokens, t, TokenValue(t).value);
  }

  lemma {:induction false} ContributionKept(tokens: seq<string>, t: string, v: int)
    requires t in tokens && Contribution(t) == [v]
    ensures v in KeepParsed(tokens)
    decreases |tokens|
  {
    var init := tokens[..|tokens| - 1];
    var last := tokens[|tokens| - 1];
    assert KeepParsed(tokens) == KeepParsed(init) + Contribution(last);
    var i :| 0 <= i < |tokens| && tokens[i] == t;
    if i < |tokens| - 1 {
      assert init[i] == tokens[i];
      ContributionKept(init, t, v);
    }
  }

  lemma ContributionOfNumber(t: string)
    requires TokenValue(t).Int?
    ensures Contribution(t) == [TokenValue(t).value]
  {
  }

  /** The node's default page selection "0-7" asks for the first eight pages. */
  lemma ParsePagesDefault()
    ensures ParsePages("0-7") == [0, 1, 2, 3, 4, 5, 6, 7]
  {
    DefaultRangeBounds();
    FirstEightPages();
  }

  lemma FirstEightPages()
    ensures RangeList(0, 7) == [0, 1, 2, 3, 4, 5, 6, 7]
  {
  }

  lemma DefaultRangeBounds()
    ensures '-' in "0-7" && RangeBounds("0-7") == (Int(0), Int(7))
  {
    assert "0-7"[1] == '-';
    assert "0-7" == "0" + ['-'] + "7";
    SplitPrefix("0", "7", '-');
    NumberNatToString(0);
    NumberNatToString(7);
    assert NatToString(0) == "0";
    assert NatToString(7) == "7";
  }
}
