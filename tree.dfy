/**
 * The expandable year → module → subject → topic trees of the content browsers: the
 * `expanded` map keyed by level-prefixed ids, the per-parent child caches and the
 * rendering of a parent's children.
 */
module Tree {
  import opened Wrappers

  /** A year, module, subject, topic, OSPE or MCQ as far as the tree needs it. */
  datatype Node = Node(id: string, name: string)

  /** The tree levels whose rows can be expanded. */
  datatype Level = YearLevel | ModuleLevel | SubjectLevel | TopicLevel

  /** The letter of a level's key prefix: `y-`, `m-`, `s-`, `t-`. */
  function Letter(level: Level): char {
    match level
    case YearLevel => 'y'
    case ModuleLevel => 'm'
    case SubjectLevel => 's'
    case TopicLevel => 't'
  }

  /** The key of a row in the `expanded` map, such as `` `y-${year._id}` ``. */
  function Key(level: Level, id: string): (k: string)
    ensures |k| == |id| + 2 && k[1] == '-' && k[2..] == id
  {
    [Letter(level), '-'] + id
  }

  /** Rows of different levels or ids never share a key, so their expand states are independent. */
  lemma KeyInjective(l1: Level, id1: string, l2: Level, id2: string)
    requires Key(l1, id1) == Key(l2, id2)
    ensures l1 == l2 && id1 == id2
  {
    assert Key(l1, id1)[0] == Letter(l1);
    assert Key(l2, id2)[0] == Letter(l2);
    assert id1 == Key(l1, id1)[2..];
    assert id2 == Key(l2, id2)[2..];
  }

  /** `expanded[key]` read as a boolean: a missing key is collapsed. */
  predicate IsExpanded(expanded: map<string, bool>, key: string) {
    key in expanded && expanded[key]
  }

  /** `toggle(key)`: `{ ...e, [key]: !e[key] }` flips exactly the named key. */
  function Toggle(expanded: map<string, bool>, key: string): (e: map<string, bool>)
    ensures IsExpanded(e, key) == !IsExpanded(expanded, key)
    ensures forall k :: k != key ==> (k in e <==> k in expanded)
    ensures forall k :: k != key && k in expanded ==> e[k] == expanded[k]
  {
    expanded[key := !IsExpanded(expanded, key)]
  }

  /** Toggling twice restores the expand state of every key. */
  lemma ToggleTwice(expanded: map<string, bool>, key: string)
    ensures forall k :: IsExpanded(Toggle(Toggle(expanded, key), key), k) == IsExpanded(expanded, k)
  {
  }

  /** `cache[id] || []`: a parent with nothing cached renders no children. */
  function Children(cache: map<string, seq<Node>>, id: string): (r: seq<Node>)
    ensures id !in cache ==> r == []
    ensures id in cache ==> r == cache[id]
  {
    if id in cache then cache[id] else []
  }

  /** A parent's children appear only while the parent is expanded. */
  function VisibleChildren(expanded: map<string, bool>, level: Level,
                           cache: map<string, seq<Node>>, id: string): (r: seq<Node>)
    ensures !IsExpanded(expanded, Key(level, id)) ==> r == []
    ensures IsExpanded(expanded, Key(level, id)) ==> r == Children(cache, id)
  {
    if IsExpanded(expanded, Key(level, id)) then Children(cache, id) else []
  }

  /** A cache after a loader ran, and whether the loader sent a request. */
  datatype LoadStep = LoadStep(cache: map<string, seq<Node>>, fetched: bool)

  /**
   * What a loader with the guard `if (cache[id]) return` does: when an entry exists (an
   * empty array is truthy) nothing is fetched; otherwise one fetch is made and, if it
   * succeeds, its data is stored under `id`. A failed fetch stores nothing.
   */
  function GuardedLoad(cache: map<string, seq<Node>>, id: string, response: Outcome<seq<Node>>): (s: LoadStep)
    ensures s.fetched <==> id !in cache
    ensures forall k :: k != id ==> (k in s.cache <==> k in cache)
    ensures forall k :: k != id && k in cache ==> s.cache[k] == cache[k]
    ensures id in s.cache <==> id in cache || response.Ok?
    ensures id in cache ==> s.cache == cache
    ensures id !in cache && response.Ok? ==> s.cache[id] == response.data
  {
    if id in cache then LoadStep(cache, false)
    else if response.Ok? then LoadStep(cache[id := response.data], true)
    else LoadStep(cache, true)
  }

  /** Once a load has stored an entry, loading the same parent again fetches nothing and changes nothing. */
  lemma GuardedLoadSettles(cache: map<string, seq<Node>>, id: string, first: Outcome<seq<Node>>, second: Outcome<seq<Node>>)
    requires first.Ok?
    ensures var s := GuardedLoad(GuardedLoad(cache, id, first).cache, id, second);
            !s.fetched && s.cache == GuardedLoad(cache, id, first).cache
  {
  }

  /**
   * A loader without a guard: it always fetches, and a successful response overwrites
   * the parent's entry. A failed fetch stores nothing.
   */
  function Refetch(cache: map<string, seq<Node>>, id: string, response: Outcome<seq<Node>>): (c: map<string, seq<Node>>)
    ensures forall k :: k != id ==> (k in c <==> k in cache)
    ensures forall k :: k != id && k in cache ==> c[k] == cache[k]
    ensures response.Ok? ==> id in c && c[id] == response.data
    ensures response.Failed? ==> c == cache
  {
    if response.Ok? then cache[id := response.data] else cache
  }
}
