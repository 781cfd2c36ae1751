/**
 * The JSON texts the quiz service stores and reads, abstracted to the shapes
 * it tells apart. A decoded JSON object is an association list that keeps the
 * insertion order of the map Jackson builds when it reads one.
 */
module Json {
  import opened Wrappers

  /** A decoded JSON object whose values are strings, in document order. */
  type Object = seq<(string, string)>

  /**
   * A stored JSON text: a flat object, an array of flat objects, or anything
   * else (malformed text, `null`, an object with non-string values, ...).
   */
  datatype Json = Flat(entries: Object) | Arr(items: seq<Object>) | Bad

  /** `objectMapper.writeValueAsString(map)`: a map is written as a flat object. */
  function Serialize(m: Object): Json
  {
    Flat(m)
  }

  /** `objectMapper.readValue(text, Map.class)`: only a flat object decodes. */
  function ReadObject(j: Json): Option<Object>
  {
    if j.Flat? then Some(j.entries) else None
  }

  /** `objectMapper.readValue(text, List<Map<String, String>>)`: only an array decodes. */
  function ReadList(j: Json): Option<seq<Object>>
  {
    if j.Arr? then Some(j.items) else None
  }

  /**
   * The two-shape decode of a selection's alternatives: first as a list of
   * objects, and when that fails as one object wrapped in a one-element list.
   */
  function DecodeAlternatives(j: Json): Option<seq<Object>>
  {
    match ReadList(j)
    case Some(items) => Some(items)
    case None =>
      match ReadObject(j)
      case Some(m) => Some([m])
      case None => None
  }

  /** The entries of every object, object after object, each in its own order. */
  function Flatten(ms: seq<Object>): Object
  {
    if ms == [] then [] else ms[0] + Flatten(ms[1..])
  }

  /** The number of entries over all the objects. */
  function TotalSize(ms: seq<Object>): nat
  {
    if ms == [] then 0 else |ms[0]| + TotalSize(ms[1..])
  }

  /**
   * `map.get(key)` on a decoded object. Jackson overwrites the value of a
   * repeated key, so the last entry with the key wins.
   */
  function Lookup(m: Object, key: string): Option<string>
    decreases |m|
  {
    if m == [] then None
    else if m[|m| - 1].0 == key then Some(m[|m| - 1].1)
    else Lookup(m[..|m| - 1], key)
  }

  /**
   * `Lookup` finds a value exactly when some entry has the key, and then it
   * is the value of the last such entry.
   */
  lemma {:induction false} LookupSpec(m: Object, key: string)
    ensures Lookup(m, key).None? <==> forall i :: 0 <= i < |m| ==> m[i].0 != key
    ensures Lookup(m, key).Some? ==>
      exists i :: 0 <= i < |m| && m[i] == (key, Lookup(m, key).value) &&
                  forall j :: i < j < |m| ==> m[j].0 != key
    decreases |m|
  {
    if m != [] && m[|m| - 1].0 != key {
      var init := m[..|m| - 1];
      LookupSpec(init, key);
      assert forall i :: 0 <= i < |init| ==> init[i] == m[i];
    }
  }

  /** A shape that decodes decodes to exactly the objects it holds; only `Bad` fails. */
  lemma DecodeShapes(j: Json)
    ensures DecodeAlternatives(j).None? <==> j.Bad?
    ensures j.Arr? ==> DecodeAlternatives(j) == Some(j.items)
    ensures j.Flat? ==> DecodeAlternatives(j) == Some([j.entries])
  {
  }

  /**
   * Round trip of the alternatives: what the assembly writes (a flat object)
   * fails the list decode, succeeds on the single-object fallback, and
   * flattens back to the same entries in the same order.
   */
  lemma AlternativesRoundTrip(m: Object)
    ensures ReadList(Serialize(m)).None?
    ensures ReadObject(Serialize(m)) == Some(m)
    ensures DecodeAlternatives(Serialize(m)) == Some([m])
    ensures Flatten(DecodeAlternatives(Serialize(m)).value) == m
  {
    assert Flatten([m]) == m + Flatten([]);
  }

  /** Flattening a list of objects yields as many entries as the objects hold together. */
  lemma {:induction false} FlattenSize(ms: seq<Object>)
    ensures |Flatten(ms)| == TotalSize(ms)
  {
    if ms != [] {
      FlattenSize(ms[1..]);
    }
  }

  /** Flattening distributes over concatenation of the object lists. */
  lemma {:induction false} FlattenAppend(a: seq<Object>, b: seq<Object>)
    ensures Flatten(a + b) == Flatten(a) + Flatten(b)
  {
    if a == [] {
      assert a + b == b;
    } else {
      assert (a + b)[1..] == a[1..] + b;
      FlattenAppend(a[1..], b);
    }
  }

  /**
   * Every entry of every object appears in the flattened list, at the offset
   * of its object plus its own position.
   */
  lemma {:induction false} FlattenEntry(ms: seq<Object>, k: nat, e: nat)
    requires k < |ms| && e < |ms[k]|
    ensures TotalSize(ms[..k]) + e < |Flatten(ms)|
    ensures Flatten(ms)[TotalSize(ms[..k]) + e] == ms[k][e]
  {
    FlattenSize(ms);
    if k == 0 {
      assert ms[..0] == [];
    } else {
      assert ms[1..][..k - 1] == ms[..k][1..];
      FlattenEntry(ms[1..], k - 1, e);
    }
  }
}
