/** Depth-bounded recursive expansion of JSON-LD documents (`expandRecursive`
    and `processObject` of lib/ldr-core.js) and the `@graph` selection that
    ends `compactJsonLd`. The JSON-LD library's `expand` and `compact` are
    oracles passed as parameters. */
module Expand {
  import opened Common
  import opened JsonData

  /** `jsonld.expand(url)`: the expanded document, or the message of the
      error it raised. */
  type Fetch = string -> Result<Json, string>

  /** `jsonld.compact(doc, context)`. */
  type Compactor = (Json, string) -> Result<Json, string>

  /** What is left of the depth budget; it shrinks with every fetch. */
  function Budget(maxDepth: int, depth: int): nat
  {
    if depth < maxDepth then maxDepth - depth else 0
  }

  /** `{"@id": url}`, the unexpanded reference. */
  function IdStub(url: string): Json
  {
    Obj([Entry("@id", Str(url))])
  }

  /** `{"@id": url, "_error": message}`, the trace of a failed fetch. */
  function ErrorStub(url: string, message: string): Json
  {
    Obj([Entry("@id", Str(url)), Entry("_error", Str(message))])
  }

  /** An expanded document that is a one-element array stands for its element. */
  function Unwrap(doc: Json): Json
  {
    if doc.Arr? && |doc.items| == 1 then doc.items[0] else doc
  }

  /** A bare reference: an object whose only key is `@id`, holding a string
      that starts with `http` or `file://`. */
  predicate IsReference(obj: Json)
  {
    && obj.Obj?
    && |obj.entries| == 1
    && obj.entries[0].key == "@id"
    && obj.entries[0].value.Str?
    && (StartsWith(obj.entries[0].value.s, "http") || StartsWith(obj.entries[0].value.s, "file://"))
  }

  /** A processed array of length exactly one stands for its element. */
  function Collapse(items: seq<Json>): (r: Json)
    ensures |items| == 1 ==> r == items[0]
    ensures |items| != 1 ==> r == Arr(items)
  {
    if |items| == 1 then items[0] else Arr(items)
  }

  // ---------------------------------------------------------------------
  // The mutual recursion. The budget falls with every fetch; between
  // fetches the value being walked gets smaller.

  /** `expandRecursive(jsonld, url, maxDepth, depth)`. */
  function ExpandRecursive(fetch: Fetch, url: string, maxDepth: int, depth: int): (r: Json)
    ensures depth >= maxDepth ==> r == IdStub(url)
    decreases Budget(maxDepth, depth), 0, 0
  {
    if depth >= maxDepth then IdStub(url)
    else
      match fetch(url)
      case Err(message) => ErrorStub(url, message)
      case Ok(doc) => ProcessObject(fetch, Unwrap(doc), maxDepth, depth + 1)
  }

  /** `processObject(jsonld, obj, maxDepth, depth)`. */
  function ProcessObject(fetch: Fetch, obj: Json, maxDepth: int, depth: int): (r: Json)
    ensures !obj.Arr? && !obj.Obj? ==> r == obj
    decreases Budget(maxDepth, depth), Size(obj), 0
  {
    match obj
    case Arr(items) => Collapse(ProcessItems(fetch, items, maxDepth, depth))
    case Obj(entries) =>
      if IsReference(obj) && depth < maxDepth then
        ExpandRecursive(fetch, entries[0].value.s, maxDepth, depth)
      else
        Obj(ProcessEntries(fetch, entries, maxDepth, depth))
    case _ => obj
  }

  /** `arr.map(item => processObject(...))`, in order. */
  function ProcessItems(fetch: Fetch, items: seq<Json>, maxDepth: int, depth: int): (r: seq<Json>)
    ensures |r| == |items|
    decreases Budget(maxDepth, depth), ItemsSize(items), 1
  {
    if |items| == 0 then []
    else [ProcessObject(fetch, items[0], maxDepth, depth)] + ProcessItems(fetch, items[1..], maxDepth, depth)
  }

  /** The value stored under a key of a non-reference object: arrays are
      processed element-wise and collapsed, non-null objects processed, and
      everything else copied. */
  function ProcessValue(fetch: Fetch, value: Json, maxDepth: int, depth: int): (r: Json)
    ensures !value.Arr? && !value.Obj? ==> r == value
    decreases Budget(maxDepth, depth), Size(value), 1
  {
    match value
    case Arr(items) => Collapse(ProcessItems(fetch, items, maxDepth, depth))
    case Obj(_) => ProcessObject(fetch, value, maxDepth, depth)
    case _ => value
  }

  /** The per-key loop filling `result`: keys kept in order. */
  function ProcessEntries(fetch: Fetch, entries: Entries<Json>, maxDepth: int, depth: int): (r: Entries<Json>)
    ensures |r| == |entries|
    ensures forall i :: 0 <= i < |r| ==> r[i].key == entries[i].key
    decreases Budget(maxDepth, depth), EntriesSize(entries), 2
  {
    if |entries| == 0 then []
    else
      [Entry(entries[0].key, ProcessValue(fetch, entries[0].value, maxDepth, depth))]
      + ProcessEntries(fetch, entries[1..], maxDepth, depth)
  }

  // ---------------------------------------------------------------------
  // Element-wise descriptions.

  /** Item i of a processed array is item i processed. */
  lemma {:induction false} ProcessItemsAt(fetch: Fetch, items: seq<Json>, maxDepth: int, depth: int, i: nat)
    requires i < |items|
    ensures ProcessItems(fetch, items, maxDepth, depth)[i] == ProcessObject(fetch, items[i], maxDepth, depth)
    decreases i
  {
    if i > 0 {
      ProcessItemsAt(fetch, items[1..], maxDepth, depth, i - 1);
    }
  }

  /** Entry i of a processed object keeps its key and holds its value processed. */
  lemma {:induction false} ProcessEntriesAt(fetch: Fetch, entries: Entries<Json>, maxDepth: int, depth: int, i: nat)
    requires i < |entries|
    ensures ProcessEntries(fetch, entries, maxDepth, depth)[i]
            == Entry(entries[i].key, ProcessValue(fetch, entries[i].value, maxDepth, depth))
    decreases i
  {
    if i > 0 {
      ProcessEntriesAt(fetch, entries[1..], maxDepth, depth, i - 1);
    }
  }

  /** An object that is not an expandable reference keeps its key set, in
      order, and nothing else changes about its shape. */
  lemma NonReferenceKeepsKeys(fetch: Fetch, obj: Json, maxDepth: int, depth: int)
    requires obj.Obj? && !(IsReference(obj) && depth < maxDepth)
    ensures ProcessObject(fetch, obj, maxDepth, depth).Obj?
    ensures Keys(ProcessObject(fetch, obj, maxDepth, depth).entries) == Keys(obj.entries)
  {
  }

  /** A reference with budget left is replaced by the expansion of its url,
      at the same depth. */
  lemma ReferenceIsExpanded(fetch: Fetch, url: string, maxDepth: int, depth: int)
    requires StartsWith(url, "http") || StartsWith(url, "file://")
    requires depth < maxDepth
    ensures ProcessObject(fetch, IdStub(url), maxDepth, depth) == ExpandRecursive(fetch, url, maxDepth, depth)
  {
  }

  /** A fetch failure is reported in the result, never raised. */
  lemma FetchFailureIsStub(fetch: Fetch, url: string, maxDepth: int, depth: int)
    requires depth < maxDepth && fetch(url).Err?
    ensures ExpandRecursive(fetch, url, maxDepth, depth) == ErrorStub(url, fetch(url).error)
  {
  }

  /** A fetched one-element array is unwrapped and processed one level deeper. */
  lemma FetchedSingletonUnwrapped(fetch: Fetch, url: string, maxDepth: int, depth: int)
    requires depth < maxDepth && fetch(url).Ok?
    requires fetch(url).value.Arr? && |fetch(url).value.items| == 1
    ensures ExpandRecursive(fetch, url, maxDepth, depth)
            == ProcessObject(fetch, fetch(url).value.items[0], maxDepth, depth + 1)
  {
  }

  // ---------------------------------------------------------------------
  // The fetches an expansion performs.

  /** One call of the fetch oracle: which url, at which depth. */
  datatype FetchCall = FetchCall(url: string, depth: int)

  /** The fetches `ExpandRecursive` performs, in order. The first is the
      root's own fetch; every nested one lies strictly deeper, and all lie
      below `maxDepth`. */
  ghost function ExpandFetches(fetch: Fetch, url: string, maxDepth: int, depth: int): (log: seq<FetchCall>)
    ensures depth >= maxDepth ==> log == []
    ensures depth < maxDepth ==> |log| >= 1 && log[0] == FetchCall(url, depth)
    ensures forall k :: 0 <= k < |log| ==> depth <= log[k].depth < maxDepth
    ensures forall k :: 1 <= k < |log| ==> log[k].depth > depth
    decreases Budget(maxDepth, depth), 0, 0
  {
    if depth >= maxDepth then []
    else
      [FetchCall(url, depth)]
      + match fetch(url)
        case Err(_) => []
        case Ok(doc) => ObjectFetches(fetch, Unwrap(doc), maxDepth, depth + 1)
  }

  ghost function ObjectFetches(fetch: Fetch, obj: Json, maxDepth: int, depth: int): (log: seq<FetchCall>)
    ensures forall k :: 0 <= k < |log| ==> depth <= log[k].depth < maxDepth
    decreases Budget(maxDepth, depth), Size(obj), 0
  {
    match obj
    case Arr(items) => ItemsFetches(fetch, items, maxDepth, depth)
    case Obj(entries) =>
      if IsReference(obj) && depth < maxDepth then
        ExpandFetches(fetch, entries[0].value.s, maxDepth, depth)
      else
        EntriesFetches(fetch, entries, maxDepth, depth)
    case _ => []
  }

  ghost function ItemsFetches(fetch: Fetch, items: seq<Json>, maxDepth: int, depth: int): (log: seq<FetchCall>)
    ensures forall k :: 0 <= k < |log| ==> depth <= log[k].depth < maxDepth
    decreases Budget(maxDepth, depth), ItemsSize(items), 1
  {
    if |items| == 0 then []
    else ObjectFetches(fetch, items[0], maxDepth, depth) + ItemsFetches(fetch, items[1..], maxDepth, depth)
  }

  ghost function ValueFetches(fetch: Fetch, value: Json, maxDepth: int, depth: int): (log: seq<FetchCall>)
    ensures forall k :: 0 <= k < |log| ==> depth <= log[k].depth < maxDepth
    decreases Budget(maxDepth, depth), Size(value), 1
  {
    match value
    case Arr(items) => ItemsFetches(fetch, items, maxDepth, depth)
    case Obj(_) => ObjectFetches(fetch, value, maxDepth, depth)
    case _ => []
  }

  ghost function EntriesFetches(fetch: Fetch, entries: Entries<Json>, maxDepth: int, depth: int): (log: seq<FetchCall>)
    ensures forall k :: 0 <= k < |log| ==> depth <= log[k].depth < maxDepth
    decreases Budget(maxDepth, depth), EntriesSize(entries), 2
  {
    if |entries| == 0 then []
    else ValueFetches(fetch, entries[0].value, maxDepth, depth) + EntriesFetches(fetch, entries[1..], maxDepth, depth)
  }

  /** Two oracles that answer alike on the urls in a log. */
  ghost predicate AgreeOn(f: Fetch, g: Fetch, log: seq<FetchCall>)
  {
    forall k :: 0 <= k < |log| ==> f(log[k].url) == g(log[k].url)
  }

  lemma AgreeOnSplit(f: Fetch, g: Fetch, a: seq<FetchCall>, b: seq<FetchCall>)
    requires AgreeOn(f, g, a + b)
    ensures AgreeOn(f, g, a) && AgreeOn(f, g, b)
  {
    forall k | 0 <= k < |a| ensures f(a[k].url) == g(a[k].url) {
      assert (a + b)[k] == a[k];
    }
    forall k | 0 <= k < |b| ensures f(b[k].url) == g(b[k].url) {
      assert (a + b)[|a| + k] == b[k];
    }
  }

  /** The log lists every fetch the expansion consults: an oracle that
      agrees on the logged urls gives the same expansion and the same log. */
  lemma {:induction false} ExpandDependsOnLog(f: Fetch, g: Fetch, url: string, maxDepth: int, depth: int)
    requires AgreeOn(f, g, ExpandFetches(f, url, maxDepth, depth))
    ensures ExpandRecursive(f, url, maxDepth, depth) == ExpandRecursive(g, url, maxDepth, depth)
    ensures ExpandFetches(f, url, maxDepth, depth) == ExpandFetches(g, url, maxDepth, depth)
    decreases Budget(maxDepth, depth), 0, 0
  {
    if depth < maxDepth {
      var log := ExpandFetches(f, url, maxDepth, depth);
      assert f(url) == g(url) by { assert log[0].url == url; }
      match f(url)
      case Err(_) =>
      case Ok(doc) =>
        var rest := ObjectFetches(f, Unwrap(doc), maxDepth, depth + 1);
        assert log == [FetchCall(url, depth)] + rest;
        AgreeOnSplit(f, g, [FetchCall(url, depth)], rest);
        ObjectDependsOnLog(f, g, Unwrap(doc), maxDepth, depth + 1);
    }
  }

  lemma {:induction false} ObjectDependsOnLog(f: Fetch, g: Fetch, obj: Json, maxDepth: int, depth: int)
    requires AgreeOn(f, g, ObjectFetches(f, obj, maxDepth, depth))
    ensures ProcessObject(f, obj, maxDepth, depth) == ProcessObject(g, obj, maxDepth, depth)
    ensures ObjectFetches(f, obj, maxDepth, depth) == ObjectFetches(g, obj, maxDepth, depth)
    decreases Budget(maxDepth, depth), Size(obj), 0
  {
    match obj
    case Arr(items) => ItemsDependOnLog(f, g, items, maxDepth, depth);
    case Obj(entries) =>
      if IsReference(obj) && depth < maxDepth {
        ExpandDependsOnLog(f, g, entries[0].value.s, maxDepth, depth);
      } else {
        EntriesDependOnLog(f, g, entries, maxDepth, depth);
      }
    case _ =>
  }

  lemma {:induction false} ItemsDependOnLog(f: Fetch, g: Fetch, items: seq<Json>, maxDepth: int, depth: int)
    requires AgreeOn(f, g, ItemsFetches(f, items, maxDepth, depth))
    ensures ProcessItems(f, items, maxDepth, depth) == ProcessItems(g, items, maxDepth, depth)
    ensures ItemsFetches(f, items, maxDepth, depth) == ItemsFetches(g, items, maxDepth, depth)
    decreases Budget(maxDepth, depth), ItemsSize(items), 1
  {
    if |items| > 0 {
      AgreeOnSplit(f, g, ObjectFetches(f, items[0], maxDepth, depth), ItemsFetches(f, items[1..], maxDepth, depth));
      ObjectDependsOnLog(f, g, items[0], maxDepth, depth);
      ItemsDependOnLog(f, g, items[1..], maxDepth, depth);
    }
  }

  lemma {:induction false} ValueDependsOnLog(f: Fetch, g: Fetch, value: Json, maxDepth: int, depth: int)
    requires AgreeOn(f, g, ValueFetches(f, value, maxDepth, depth))
    ensures ProcessValue(f, value, maxDepth, depth) == ProcessValue(g, value, maxDepth, depth)
    ensures ValueFetches(f, value, maxDepth, depth) == ValueFetches(g, value, maxDepth, depth)
    decreases Budget(maxDepth, depth), Size(value), 1
  {
    match value
    case Arr(items) => ItemsDependOnLog(f, g, items, maxDepth, depth);
    case Obj(_) => ObjectDependsOnLog(f, g, value, maxDepth, depth);
    case _ =>
  }

  lemma {:induction false} EntriesDependOnLog(f: Fetch, g: Fetch, entries: Entries<Json>, maxDepth: int, depth: int)
    requires AgreeOn(f, g, EntriesFetches(f, entries, maxDepth, depth))
    ensures ProcessEntries(f, entries, maxDepth, depth) == ProcessEntries(g, entries, maxDepth, depth)
    ensures EntriesFetches(f, entries, maxDepth, depth) == EntriesFetches(g, entries, maxDepth, depth)
    decreases Budget(maxDepth, depth), EntriesSize(entries), 2
  {
    if |entries| > 0 {
      AgreeOnSplit(f, g, ValueFetches(f, entries[0].value, maxDepth, depth), EntriesFetches(f, entries[1..], maxDepth, depth));
      ValueDependsOnLog(f, g, entries[0].value, maxDepth, depth);
      EntriesDependOnLog(f, g, entries[1..], maxDepth, depth);
    }
  }

  // ---------------------------------------------------------------------
  // Past the depth bound nothing is fetched: processing only collapses
  // one-element arrays.

  /** An independent description of that restructuring. */
  function CollapseSingletons(j: Json): Json
    decreases Size(j), 0
  {
    match j
    case Arr(items) => Collapse(CollapseItems(items))
    case Obj(entries) => Obj(CollapseEntries(entries))
    case _ => j
  }

  function CollapseItems(items: seq<Json>): (r: seq<Json>)
    ensures |r| == |items|
    decreases ItemsSize(items), 1
  {
    if |items| == 0 then [] else [CollapseSingletons(items[0])] + CollapseItems(items[1..])
  }

  function CollapseEntries(entries: Entries<Json>): (r: Entries<Json>)
    ensures |r| == |entries|
    decreases EntriesSize(entries), 1
  {
    if |entries| == 0 then []
    else [Entry(entries[0].key, CollapseSingletons(entries[0].value))] + CollapseEntries(entries[1..])
  }

  /** With no budget left, processing a value is `CollapseSingletons`,
      whatever the oracle. */
  lemma {:induction false} ProcessAtCutoff(fetch: Fetch, obj: Json, maxDepth: int, depth: int)
    requires depth >= maxDepth
    ensures ProcessObject(fetch, obj, maxDepth, depth) == CollapseSingletons(obj)
    decreases Size(obj), 0
  {
    match obj
    case Arr(items) => ItemsAtCutoff(fetch, items, maxDepth, depth);
    case Obj(entries) => EntriesAtCutoff(fetch, entries, maxDepth, depth);
    case _ =>
  }

  lemma {:induction false} ItemsAtCutoff(fetch: Fetch, items: seq<Json>, maxDepth: int, depth: int)
    requires depth >= maxDepth
    ensures ProcessItems(fetch, items, maxDepth, depth) == CollapseItems(items)
    decreases ItemsSize(items), 1
  {
    if |items| > 0 {
      ProcessAtCutoff(fetch, items[0], maxDepth, depth);
      ItemsAtCutoff(fetch, items[1..], maxDepth, depth);
    }
  }

  lemma {:induction false} EntriesAtCutoff(fetch: Fetch, entries: Entries<Json>, maxDepth: int, depth: int)
    requires depth >= maxDepth
    ensures ProcessEntries(fetch, entries, maxDepth, depth) == CollapseEntries(entries)
    decreases EntriesSize(entries), 1
  {
    if |entries| > 0 {
      var v := entries[0].value;
      assert EntriesSize(entries) == Size(v) + EntriesSize(entries[1..]);
      match v {
        case Arr(items) => ItemsAtCutoff(fetch, items, maxDepth, depth);
        case Obj(_) => ProcessAtCutoff(fetch, v, maxDepth, depth);
        case _ =>
      }
      EntriesAtCutoff(fetch, entries[1..], maxDepth, depth);
    }
  }

  // ---------------------------------------------------------------------
  // compactJsonLd.

  /** `compacted["@graph"] ?? compacted`: the `@graph` member when present
      and not null, else the whole value. Reading a member of `null` raises. */
  function GraphOrWhole(compacted: Json): (r: Result<Json, string>)
    ensures compacted == Null <==> r.Err?
    ensures r.Ok? ==> r.value == compacted
                      || (compacted.Obj? && r.value != Null
                          && exists i :: 0 <= i < |compacted.entries|
                                         && compacted.entries[i] == Entry("@graph", r.value))
  {
    if compacted == Null then Err("Cannot read properties of null (reading '@graph')")
    else if compacted.Obj? then
      match Lookup(compacted.entries, "@graph")
      case Some(g) => if g != Null then Ok(g) else Ok(compacted)
      case None => Ok(compacted)
    else Ok(compacted)
  }

  /** A non-null `@graph` member is what is returned. */
  lemma GraphSelected(entries: Entries<Json>, i: nat)
    requires DistinctKeys(entries)
    requires i < |entries| && entries[i].key == "@graph" && entries[i].value != Null
    ensures GraphOrWhole(Obj(entries)) == Ok(entries[i].value)
  {
    LookupDistinct(entries, i);
  }

  /** Without a `@graph` member (or with a null one) the whole value is returned. */
  lemma NoGraphWhole(compacted: Json)
    requires compacted != Null
    requires compacted.Obj? ==> forall i :: 0 <= i < |compacted.entries| ==>
               compacted.entries[i].key != "@graph" || compacted.entries[i].value == Null
    ensures GraphOrWhole(compacted) == Ok(compacted)
  {
    if compacted.Obj? {
      var m := Lookup(compacted.entries, "@graph");
      if m.Some? {
        var i :| 0 <= i < |compacted.entries| && compacted.entries[i] == Entry("@graph", m.value);
      }
    }
  }

  /** `compactJsonLd(jsonld, url, depth)`: expand recursively from depth 0,
      compact against the url itself, then select the graph. */
  function CompactJsonLd(fetch: Fetch, compact: Compactor, url: string, depth: int): (r: Result<Json, string>)
    ensures r.Err? <==> (compact(ExpandRecursive(fetch, url, depth, 0), url).Err?
                         || compact(ExpandRecursive(fetch, url, depth, 0), url).value == Null)
  {
    match compact(ExpandRecursive(fetch, url, depth, 0), url)
    case Err(message) => Err(message)
    case Ok(compacted) => GraphOrWhole(compacted)
  }
}
