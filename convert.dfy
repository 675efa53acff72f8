/** `toGoValue` and the typed accessors built on it (essh/lualib.go). A Lua
    value becomes a Go value; a table becomes a string-keyed map or a slice,
    decided by whether it has an array part. */
module Convert {
  import opened Results
  import opened Lua

  /** The Go values `toGoValue` produces: nil, bool, string, float64,
      map[string]interface{}, []interface{}, and any other Lua value as it is. */
  datatype GoValue =
    | GoNil
    | GoBool(b: bool)
    | GoString(s: string)
    | GoFloat(n: Number)
    | GoMap(m: map<string, GoValue>)
    | GoSlice(items: seq<GoValue>)
    | GoOpaque(v: Value)

  /** How the map branch prints a key, `fmt.Sprint(toGoValue(k))`: a number
      key is printed as the float64 that `toGoValue` makes of it. */
  function MapKeyText(k: Key): string {
    match k
    case NumKey(n) => FloatText(n)
    case _ => KeyText(k)
  }

  /** The map branch prints a key as `k.String()` does, except for integer
      keys of magnitude 10^6 or more, which it prints in exponent form. */
  lemma MapKeyTextAgrees(k: Key)
    ensures !(k.NumKey? && k.n.Integer?) ==> MapKeyText(k) == KeyText(k)
    ensures k.NumKey? && k.n.Integer? && -1000000 < k.n.i < 1000000 ==> MapKeyText(k) == KeyText(k)
  {
  }

  /** The key 1000000 prints as "1000000" but becomes the map key "1e+06";
      1500000 becomes "1.5e+06". */
  lemma LargeIntegerKeysUseExponent()
    ensures KeyText(IntKey(1000000)) == "1000000"
    ensures MapKeyText(IntKey(1000000)) == "1e+06"
    ensures MapKeyText(IntKey(1500000)) == "1.5e+06"
  {
    MillionInFull();
    MillionAsFloat();
    FractionalMantissa();
  }

  /** The printed forms of a table's keys: the keys of the map it converts to. */
  function KeyTexts(es: seq<Entry>): set<string> {
    set j | 0 <= j < |es| :: MapKeyText(es[j].key)
  }

  /** The last entry whose key prints as `s`. `ForEach` visits the entries in
      order and each visit overwrites `ret[keystr]`, so this entry's value is
      the one that stays. */
  function LastPrinting(es: seq<Entry>, s: string): (j: nat)
    requires s in KeyTexts(es)
    ensures j < |es| && MapKeyText(es[j].key) == s
    ensures forall i :: j < i < |es| ==> MapKeyText(es[i].key) != s
  {
    var n := |es| - 1;
    if MapKeyText(es[n].key) == s then n
    else
      assert s in KeyTexts(es[..n]) by {
        var j :| 0 <= j < |es| && MapKeyText(es[j].key) == s;
        assert es[..n][j] == es[j];
      }
      LastPrinting(es[..n], s)
  }

  /** `toGoValue`. */
  function ToGoValue(v: Value): (g: GoValue)
    ensures v.Nil? <==> g.GoNil?
    ensures v.Bool? <==> g.GoBool?
    ensures v.Bool? ==> g.b == v.b
    ensures v.Str? ==> g == GoString(v.s)
    ensures v.Num? <==> g.GoFloat?
    ensures v.Num? ==> g.n == v.n
    ensures v.Table? <==> g.GoMap? || g.GoSlice?
    ensures v.Table? ==> (g.GoMap? <==> MaxN(v.entries) == 0)
    ensures v.Function? || v.Other? <==> g.GoOpaque?
    ensures g.GoOpaque? ==> g.v == v
    decreases v, 1
  {
    match v
    case Nil => GoNil
    case Bool(b) => GoBool(b)
    case Str(s) => GoString(s)
    case Num(n) => GoFloat(n)
    case Table(es) => if MaxN(es) == 0 then GoMap(MapOf(es)) else GoSlice(SliceOf(es))
    case Function(_) => GoOpaque(v)
    case Other(_) => GoOpaque(v)
  }

  /** The map branch: every printed key, with the converted value that the
      last write left under it. */
  function MapOf(es: seq<Entry>): (m: map<string, GoValue>)
    ensures m.Keys == KeyTexts(es)
    ensures forall j :: 0 <= j < |es| && IsLastPrinting(es, j) ==>
      m[MapKeyText(es[j].key)] == ToGoValue(es[j].value)
    decreases Table(es), 0
  {
    LastPrintingFindsLast(es);
    map s | s in KeyTexts(es) :: ToGoValue(es[LastPrinting(es, s)].value)
  }

  /** The slice branch: indices 1..MaxN in order, each converted. */
  function SliceOf(es: seq<Entry>): (items: seq<GoValue>)
    ensures |items| == MaxN(es)
    ensures forall i :: 0 <= i < |items| ==> items[i] == ToGoValue(ArrayPart(es)[i])
    decreases Table(es), 0
  {
    var part := ArrayEntries(es);
    seq(|part|, i requires 0 <= i < |part| => ToGoValue(part[i].value))
  }

  /** An entry that no later entry shadows is the one `LastPrinting` finds. */
  lemma LastPrintingFindsLast(es: seq<Entry>)
    ensures forall j :: 0 <= j < |es| && IsLastPrinting(es, j) ==>
      MapKeyText(es[j].key) in KeyTexts(es) && LastPrinting(es, MapKeyText(es[j].key)) == j
  {
    forall j | 0 <= j < |es| && IsLastPrinting(es, j)
      ensures MapKeyText(es[j].key) in KeyTexts(es) && LastPrinting(es, MapKeyText(es[j].key)) == j
    {
      assert MapKeyText(es[j].key) in KeyTexts(es);
    }
  }

  ghost predicate IsLastPrinting(es: seq<Entry>, j: nat)
    requires j < |es|
  {
    forall i :: j < i < |es| ==> MapKeyText(es[i].key) != MapKeyText(es[j].key)
  }

  /** When no two keys print alike, the map holds, under each key's printed
      form, the conversion of the value stored under that key. */
  lemma MapOfDistinctTexts(es: seq<Entry>)
    requires MaxN(es) == 0
    requires forall i, j :: 0 <= i < j < |es| ==> MapKeyText(es[i].key) != MapKeyText(es[j].key)
    ensures forall j :: 0 <= j < |es| ==>
      ToGoValue(Table(es)).m[MapKeyText(es[j].key)] == ToGoValue(Get(es, es[j].key))
  {
    forall j | 0 <= j < |es|
      ensures ToGoValue(Table(es)).m[MapKeyText(es[j].key)] == ToGoValue(Get(es, es[j].key))
    {
      assert IsLastPrinting(es, j);
      assert IndexOf(es, es[j].key) == j;
    }
  }

  /** A table with keys 1, 2, 3 has the array part of its three values. */
  lemma ThreeIndices(es: seq<Entry>, a: Value, b: Value, c: Value)
    requires |es| == 3 && es[0] == Entry(IntKey(1), a) && es[1] == Entry(IntKey(2), b) && es[2] == Entry(IntKey(3), c)
    ensures MaxN(es) == 3 && ArrayPart(es) == [a, b, c]
  {
    assert IndexOf(es[2..], IntKey(4)) == -1;
    assert IndexOf(es, IntKey(1)) == 0 && IndexOf(es, IntKey(2)) == 1 && IndexOf(es, IntKey(3)) == 2;
    assert IndexOf(es, IntKey(4)) == -1;
    MaxNIsLargest(es, 3);
    ArrayPartOfThree(es, a, b, c);
  }

  lemma ArrayPartOfThree(es: seq<Entry>, a: Value, b: Value, c: Value)
    requires MaxN(es) == 3
    requires Get(es, IntKey(1)) == a && Get(es, IntKey(2)) == b && Get(es, IntKey(3)) == c
    ensures ArrayPart(es) == [a, b, c]
  {
    var vs := ArrayPart(es);
    assert vs[0] == a && vs[1] == b && vs[2] == c;
  }

  /** A table with keys 1 and 3 has the array part of its first value only. */
  lemma GapIndices(es: seq<Entry>, a: Value, c: Value)
    requires |es| == 2 && es[0] == Entry(IntKey(1), a) && es[1] == Entry(IntKey(3), c)
    ensures MaxN(es) == 1 && ArrayPart(es) == [a]
  {
    assert IndexOf(es[1..], IntKey(2)) == -1;
    assert IndexOf(es, IntKey(1)) == 0 && IndexOf(es, IntKey(2)) == -1;
    MaxNIsLargest(es, 1);
    ArrayPartOfOne(es, a);
  }

  lemma ArrayPartOfOne(es: seq<Entry>, a: Value)
    requires MaxN(es) == 1 && Get(es, IntKey(1)) == a
    ensures ArrayPart(es) == [a]
  {
    assert ArrayPart(es)[0] == a;
  }

  /** A table whose array part holds strings converts to the slice of those
      strings, in index order. */
  lemma StringArrayGivesStrings(es: seq<Entry>, ss: seq<string>)
    requires MaxN(es) > 0 && |ss| == MaxN(es)
    requires forall i :: 0 <= i < |ss| ==> ArrayPart(es)[i] == Str(ss[i])
    ensures ToGoValue(Table(es)) == GoSlice(AsGoStrings(ss))
  {
    var items := ToGoValue(Table(es)).items;
    assert items == AsGoStrings(ss);
  }

  /** Each string as a Go string, in order. */
  function AsGoStrings(ss: seq<string>): (r: seq<GoValue>)
    ensures |r| == |ss| && forall i :: 0 <= i < |ss| ==> r[i] == GoString(ss[i])
  {
    seq(|ss|, i requires 0 <= i < |ss| => GoString(ss[i]))
  }

  lemma ThreeStrings(es: seq<Entry>, a: string, b: string, c: string)
    requires MaxN(es) == 3
    requires ArrayPart(es)[0] == Str(a) && ArrayPart(es)[1] == Str(b) && ArrayPart(es)[2] == Str(c)
    ensures ToGoValue(Table(es)) == GoSlice([GoString(a), GoString(b), GoString(c)])
  {
    var ss := [a, b, c];
    assert ArrayPart(es)[0] == Str(ss[0]) && ArrayPart(es)[1] == Str(ss[1]) && ArrayPart(es)[2] == Str(ss[2]);
    StringArrayGivesStrings(es, ss);
    AsGoStringsThree(a, b, c);
  }

  lemma AsGoStringsThree(a: string, b: string, c: string)
    ensures AsGoStrings([a, b, c]) == [GoString(a), GoString(b), GoString(c)]
  {
  }

  lemma AsGoStringsOne(a: string)
    ensures AsGoStrings([a]) == [GoString(a)]
  {
  }

  lemma OneString(es: seq<Entry>, a: string)
    requires MaxN(es) == 1 && ArrayPart(es)[0] == Str(a)
    ensures ToGoValue(Table(es)) == GoSlice([GoString(a)])
  {
    var ss := [a];
    assert ArrayPart(es)[0] == Str(ss[0]);
    StringArrayGivesStrings(es, ss);
    AsGoStringsOne(a);
  }

  /** Keys 1, 2, 3 holding strings give the slice of the three strings in
      index order. */
  lemma ContiguousKeysGiveSlice(es: seq<Entry>, a: string, b: string, c: string)
    requires |es| == 3 && es[0] == Entry(IntKey(1), Str(a)) && es[1] == Entry(IntKey(2), Str(b)) && es[2] == Entry(IntKey(3), Str(c))
    ensures ToGoValue(Table(es)) == GoSlice([GoString(a), GoString(b), GoString(c)])
  {
    ThreeIndices(es, Str(a), Str(b), Str(c));
    ThreeStrings(es, a, b, c);
  }

  /** Keys 1 and 3: the array part stops at 1, key 3 is ignored. */
  lemma GapEndsArrayPart(es: seq<Entry>, a: string, c: string)
    requires |es| == 2 && es[0] == Entry(IntKey(1), Str(a)) && es[1] == Entry(IntKey(3), Str(c))
    ensures ToGoValue(Table(es)) == GoSlice([GoString(a)])
  {
    GapIndices(es, Str(a), Str(c));
    OneString(es, a);
  }

  /** Keys 2 and 3 (no key 1): a map keyed "2" and "3". */
  lemma NoIndexOneGivesMap(es: seq<Entry>, b: string, c: string)
    requires |es| == 2 && es[0] == Entry(IntKey(2), Str(b)) && es[1] == Entry(IntKey(3), Str(c))
    ensures ToGoValue(Table(es)) == GoMap(map["2" := GoString(b), "3" := GoString(c)])
  {
    assert IndexOf(es[1..], IntKey(1)) == -1;
    assert IndexOf(es, IntKey(1)) == -1;
    MaxNIsLargest(es, 0);
    assert MapKeyText(es[0].key) == "2" && MapKeyText(es[1].key) == "3";
    MapOfTwo(es, b, c);
  }

  lemma MapOfTwo(es: seq<Entry>, b: string, c: string)
    requires |es| == 2 && MaxN(es) == 0
    requires MapKeyText(es[0].key) == "2" && MapKeyText(es[1].key) == "3"
    requires es[0].value == Str(b) && es[1].value == Str(c)
    ensures ToGoValue(Table(es)) == GoMap(map["2" := GoString(b), "3" := GoString(c)])
  {
    assert IsLastPrinting(es, 0) && IsLastPrinting(es, 1);
    var m := MapOf(es);
    assert KeyTexts(es) == {"2", "3"};
    assert m == map["2" := GoString(b), "3" := GoString(c)];
  }

  // ---------------------------------------------------------------------
  // Typed accessors: each tries one shape and says whether it matched.

  /** `toBool`. */
  function ToBool(v: Value): (r: Option<bool>)
    ensures r.Some? <==> v.Bool?
    ensures r.Some? ==> r.value == v.b
  {
    if v.Bool? then Some(v.b) else None
  }

  /** `toString`: only a Lua string matches (no number coercion). */
  function ToString(v: Value): (r: Option<string>)
    ensures r.Some? <==> v.Str?
    ensures r.Some? ==> r.value == v.s
  {
    if v.Str? then Some(v.s) else None
  }

  /** `toMap`: a table without an array part, converted. */
  function ToMap(v: Value): (r: Option<map<string, GoValue>>)
    ensures r.Some? <==> v.Table? && MaxN(v.entries) == 0
    ensures r.Some? ==> r.value.Keys == KeyTexts(v.entries)
    ensures r.Some? ==> r.value == MapOf(v.entries)
  {
    match ToGoValue(v)
    case GoMap(m) => Some(m)
    case _ => None
  }

  /** `toSlice`: a table with an array part, converted element by element. */
  function ToSlice(v: Value): (r: Option<seq<GoValue>>)
    ensures r.Some? <==> v.Table? && MaxN(v.entries) > 0
    ensures r.Some? ==> |r.value| == MaxN(v.entries)
    ensures r.Some? ==> forall i :: 0 <= i < |r.value| ==>
      r.value[i] == ToGoValue(ArrayPart(v.entries)[i])
  {
    match ToGoValue(v)
    case GoSlice(items) => Some(items)
    case _ => None
  }

  /** `toLFunction`. */
  function ToLFunction(v: Value): (r: Option<nat>)
    ensures r.Some? <==> v.Function?
    ensures r.Some? ==> r.value == v.id
  {
    if v.Function? then Some(v.id) else None
  }

  /** `toLTable`: a table, not yet converted. */
  function ToLTable(v: Value): (r: Option<seq<Entry>>)
    ensures r.Some? <==> v.Table?
    ensures r.Some? ==> r.value == v.entries
  {
    if v.Table? then Some(v.entries) else None
  }

  /** Every table converts to exactly one of a map and a slice, and nothing
      else converts to either. */
  lemma TableHasOneShape(v: Value)
    ensures ToLTable(v).Some? <==> ToMap(v).Some? || ToSlice(v).Some?
    ensures !(ToMap(v).Some? && ToSlice(v).Some?)
  {
  }

  /** Conversion keeps strings and makes nothing else a string. */
  lemma StringsConvertToStrings(v: Value)
    ensures ToGoValue(v).GoString? <==> v.Str?
    ensures v.Str? ==> ToGoValue(v).s == v.s
  {
  }
}
