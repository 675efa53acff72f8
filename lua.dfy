/** The Lua values that configuration scripts hand to the essh configuration
    layer, the raw table operations it uses on them (RawGet, MaxN), and the
    errors it raises back into the Lua state. */
module Lua {
  import opened Results

  /** A Lua number, kept opaque. The configuration layer never computes with
      numbers: it only needs to know which numbers are integers (a table's
      array part is indexed by 1, 2, ...) and how a number prints. `text` is
      the printed form of a non-integral number. */
  datatype Number = Integer(i: int) | Fractional(text: string)

  /** Table keys. Only scalar keys are modelled. */
  datatype Key = BoolKey(b: bool) | StrKey(s: string) | NumKey(n: Number)

  /** A Lua value. A table is the list of its (key, value) entries in the
      order that `ForEach` visits them; `Function` and `Other` (userdata,
      threads, channels) are identified by an opaque reference. */
  datatype Value =
    | Nil
    | Bool(b: bool)
    | Str(s: string)
    | Num(n: Number)
    | Table(entries: seq<Entry>)
    | Function(id: nat)
    | Other(id: nat)

  datatype Entry = Entry(key: Key, value: Value)

  /** The outcome of a protected call (`L.CallByParam` with `Protect: true`):
      either the error the callee raised, or the value it returned (Nil if it
      returned nothing). */
  datatype CallOutcome = Raised(message: string) | Returned(value: Value)

  /** The errors raised into the Lua state (`L.RaiseError`, `L.ArgError`, or a
      Go `panic` while a script is running). */
  datatype Error =
    | InvalidHookType(hook: Value)
    | UnsupportedTags
    | FileAndScript
    | ForeachAndOn
    | PrepareNotFunction
    | StringExpected(position: nat)
    | ModuleLoadFailed(reason: string)
    | ModuleIndexMissing(reason: string)
    | ModuleScriptFailed(reason: string)

  const HookTypeText := "invalid hook type"
  const TagsFormatText := "unsupported format of tags."
  const FileAndScriptText := "invalid task definition: can't use 'file' and 'script' at the same time."
  const ForeachAndOnText := "invalid task definition: can't use 'foreach' and 'on' at the same time."
  const PrepareTypeText := "prepare have to be function."
  const StringExpectedText := "string expected"

  /** The message text of an error. The module errors pass the Go error's
      text on. */
  function Message(e: Error): (r: string)
    ensures e.ModuleLoadFailed? || e.ModuleScriptFailed? ==> r == e.reason
    ensures e.ModuleIndexMissing? ==> r == "Could not load essh module: " + e.reason
  {
    match e
    case InvalidHookType(_) => HookTypeText
    case UnsupportedTags => TagsFormatText
    case FileAndScript => FileAndScriptText
    case ForeachAndOn => ForeachAndOnText
    case PrepareNotFunction => PrepareTypeText
    case StringExpected(_) => StringExpectedText
    case ModuleLoadFailed(reason) => reason
    case ModuleIndexMissing(reason) => "Could not load essh module: " + reason
    case ModuleScriptFailed(reason) => reason
  }

  /** Which check an error with a fixed text comes from. */
  function CheckKind(e: Error): nat {
    match e
    case InvalidHookType(_) => 0
    case UnsupportedTags => 1
    case FileAndScript => 2
    case ForeachAndOn => 3
    case PrepareNotFunction => 4
    case StringExpected(_) => 5
    case _ => 6
  }

  /** The length of the fixed message of each check. */
  lemma FixedMessageLength(e: Error)
    requires CheckKind(e) < 6
    ensures |Message(e)| == FixedLength(CheckKind(e))
  {
  }

  /** The lengths of the six fixed texts, in `CheckKind` order. */
  function FixedLength(k: nat): nat {
    if k == 0 then 17 else if k == 1 then 27 else if k == 2 then 72
    else if k == 3 then 71 else if k == 4 then 28 else 15
  }

  /** The errors of the configuration checks: two of them have the same
      message exactly when they come from the same check. */
  lemma FixedMessagesDiffer(e1: Error, e2: Error)
    requires CheckKind(e1) < 6 && CheckKind(e2) < 6
    ensures Message(e1) == Message(e2) <==> CheckKind(e1) == CheckKind(e2)
  {
    FixedMessageLength(e1);
    FixedMessageLength(e2);
  }

  // ---------------------------------------------------------------------
  // Printing

  function DigitChar(d: nat): (c: char)
    requires d < 10
    ensures '0' <= c <= '9'
  {
    (48 + d) as char
  }

  /** The decimal digits of `n`, without leading zeros. */
  function NatText(n: nat): (r: string)
    ensures 1 <= |r| && (|r| == 1 <==> n < 10)
    ensures forall k :: 0 <= k < |r| ==> '0' <= r[k] <= '9'
    decreases n
  {
    if n < 10 then [DigitChar(n)] else NatText(n / 10) + [DigitChar(n % 10)]
  }

  /** Different numbers have different digits. */
  lemma {:induction false} NatTextInjective(n: nat, m: nat)
    requires NatText(n) == NatText(m)
    ensures n == m
    decreases n
  {
    if n >= 10 && m >= 10 {
      var a, b := NatText(n), NatText(m);
      assert a[|a| - 1] == b[|b| - 1];
      assert a[..|a| - 1] == NatText(n / 10) && b[..|b| - 1] == NatText(m / 10);
      NatTextInjective(n / 10, m / 10);
    }
  }

  /** How a number prints as `String()` does: an integer in full, a
      fractional number by its text. */
  function NumberText(n: Number): string {
    match n
    case Integer(i) => if i < 0 then "-" + NatText(-i) else NatText(i)
    case Fractional(text) => text
  }

  /** Two different integers never print alike. */
  lemma IntegerTextsDiffer(i: int, j: int)
    requires i != j
    ensures NumberText(Integer(i)) != NumberText(Integer(j))
  {
    if i < 0 && j < 0 {
      NegativeTextsDiffer(-i, -j);
    } else if i >= 0 && j >= 0 {
      if NatText(i) == NatText(j) {
        NatTextInjective(i, j);
      }
    } else if i < 0 {
      SignedTextDiffers(-i, j);
    } else {
      SignedTextDiffers(-j, i);
    }
  }

  lemma NegativeTextsDiffer(a: nat, b: nat)
    requires a != b
    ensures "-" + NatText(a) != "-" + NatText(b)
  {
    var s, t := "-" + NatText(a), "-" + NatText(b);
    if s == t {
      assert NatText(a) == s[1..] && NatText(b) == t[1..];
      NatTextInjective(a, b);
    }
  }

  /** A negative number's text starts with '-', a digit text never does. */
  lemma SignedTextDiffers(a: nat, b: nat)
    ensures "-" + NatText(a) != NatText(b)
  {
    assert ("-" + NatText(a))[0] == '-';
  }

  /** `m` without its trailing decimal zeros. */
  function TrimZeros(m: nat): nat
    decreases m
  {
    if m > 0 && m % 10 == 0 then TrimZeros(m / 10) else m
  }

  /** The number of decimal digits of `m`. */
  function DigitCount(m: nat): nat
    decreases m
  {
    if m < 10 then 1 else DigitCount(m / 10) + 1
  }

  /** How `fmt.Sprint` prints a float64: an integer below 10^6 in magnitude
      in full, a larger one in exponent form with its shortest mantissa
      ("1e+06", "-1.5e+07"), a fractional number by its text. The mantissa
      is exact for integers below 2^53 in magnitude. */
  function FloatText(n: Number): string {
    match n
    case Integer(i) =>
      var m: nat := if i < 0 then -i else i;
      var sign := if i < 0 then "-" else "";
      if m < 1000000 then sign + NatText(m)
      else
        var exp := DigitCount(m) - 1;
        var mant := NatText(TrimZeros(m));
        var mantissa := if |mant| == 1 then mant else mant[..1] + "." + mant[1..];
        sign + mantissa + "e+" + (if exp < 10 then "0" else "") + NatText(exp)
    case Fractional(text) => text
  }

  lemma MillionInFull()
    ensures NumberText(Integer(1000000)) == "1000000"
  {
  }

  lemma MillionAsFloat()
    ensures FloatText(Integer(1000000)) == "1e+06"
  {
    MillionDigits();
    assert NatText(6) == "6";
  }

  lemma FractionalMantissa()
    ensures FloatText(Integer(1500000)) == "1.5e+06"
  {
    MillionDigits();
    assert NatText(6) == "6";
    assert NatText(15) == "15" by { assert NatText(1) == "1"; }
    var t := NatText(15);
    assert t[..1] + "." + t[1..] == "1.5";
  }

  lemma MillionDigits()
    ensures DigitCount(1000000) == 7 && DigitCount(1500000) == 7
    ensures TrimZeros(1000000) == 1 && TrimZeros(1500000) == 15
  {
    SevenDigits(1000000);
    SevenDigits(1500000);
  }

  lemma SevenDigits(m: nat)
    requires 1000000 <= m < 10000000
    ensures DigitCount(m) == 7
  {
    assert DigitCount(m / 1000000) == 1;
    assert DigitCount(m / 100000) == 2;
    assert DigitCount(m / 10000) == 3;
    assert DigitCount(m / 1000) == 4;
    assert DigitCount(m / 100) == 5;
    assert DigitCount(m / 10) == 6;
  }

  /** How a key prints as `k.String()`. */
  function KeyText(k: Key): string {
    match k
    case BoolKey(b) => if b then "true" else "false"
    case StrKey(s) => s
    case NumKey(n) => NumberText(n)
  }

  /** `L.CheckString(n)`: a string argument, or a number converted to its
      printed form; anything else is a bad argument. */
  function CheckString(v: Value): (r: Option<string>)
    ensures r.Some? <==> v.Str? || v.Num?
    ensures v.Str? ==> r == Some(v.s)
    ensures v.Num? ==> r == Some(NumberText(v.n))
  {
    match v
    case Str(s) => Some(s)
    case Num(n) => Some(NumberText(n))
    case _ => None
  }

  // ---------------------------------------------------------------------
  // Raw table access

  /** The position of the entry stored under `k`, or -1. */
  function IndexOf(es: seq<Entry>, k: Key): (i: int)
    ensures -1 <= i < |es|
    ensures i == -1 <==> forall j :: 0 <= j < |es| ==> es[j].key != k
    ensures 0 <= i ==> es[i].key == k && forall j :: 0 <= j < i ==> es[j].key != k
  {
    if es == [] then -1
    else if es[0].key == k then 0
    else
      var i := IndexOf(es[1..], k);
      if i < 0 then -1 else i + 1
  }

  predicate Has(es: seq<Entry>, k: Key) {
    IndexOf(es, k) >= 0
  }

  /** `RawGet`: the value stored under `k`, Nil when there is none. */
  function Get(es: seq<Entry>, k: Key): Value {
    var i := IndexOf(es, k);
    if i < 0 then Nil else es[i].value
  }

  /** `RawGet` gives the value of the first entry stored under `k`, and Nil
      when no entry is. */
  lemma GetFindsFirst(es: seq<Entry>, k: Key)
    ensures (forall j :: 0 <= j < |es| ==> es[j].key != k) ==> Get(es, k) == Nil
    ensures forall j :: 0 <= j < |es| && es[j].key == k && (forall i :: 0 <= i < j ==> es[i].key != k) ==>
      Get(es, k) == es[j].value
  {
  }

  /** `RawGetString(name)`. */
  function Field(es: seq<Entry>, name: string): Value {
    Get(es, StrKey(name))
  }

  /** The key of array index `i` (`RawGetInt(i)`). */
  function IntKey(i: int): Key {
    NumKey(Integer(i))
  }

  /** Keys 1..n are all present. */
  ghost predicate HasIndices(es: seq<Entry>, n: nat) {
    forall j :: 1 <= j <= n ==> Has(es, IntKey(j))
  }

  // ---------------------------------------------------------------------
  // MaxN: the length of the array part

  function IndexKeys(n: nat): set<Key> {
    set j | 1 <= j <= n :: IntKey(j)
  }

  lemma {:induction false} IndexKeysSize(n: nat)
    ensures |IndexKeys(n)| == n
  {
    if n == 0 {
      assert IndexKeys(0) == {};
    } else {
      IndexKeysSize(n - 1);
      assert IndexKeys(n) == IndexKeys(n - 1) + {IntKey(n)};
      assert IntKey(n) !in IndexKeys(n - 1);
    }
  }

  /** A table holds at least as many entries as it has distinct keys. */
  lemma {:induction false} PresentKeysBound(es: seq<Entry>, keys: set<Key>)
    requires forall k :: k in keys ==> Has(es, k)
    ensures |keys| <= |es|
    decreases |es|
  {
    if es != [] {
      var rest := keys - {es[0].key};
      forall k | k in rest
        ensures Has(es[1..], k)
      {
        assert Has(es, k);
      }
      PresentKeysBound(es[1..], rest);
      assert |keys| <= |rest| + 1;
    }
  }

  lemma IndicesBound(es: seq<Entry>, n: nat)
    requires HasIndices(es, n)
    ensures n <= |es|
  {
    IndexKeysSize(n);
    PresentKeysBound(es, IndexKeys(n));
  }

  /** The end of the run of present indices that starts above `n`. */
  function Border(es: seq<Entry>, n: nat): (m: nat)
    requires HasIndices(es, n)
    ensures n <= m && HasIndices(es, m) && !Has(es, IntKey(m + 1))
    decreases |es| - n
  {
    IndicesBound(es, n);
    if Has(es, IntKey(n + 1)) then
      IndicesBound(es, n + 1);
      Border(es, n + 1)
    else
      n
  }

  /** `MaxN`: the largest n such that the keys 1..n are all present. */
  function MaxN(es: seq<Entry>): (n: nat)
    ensures HasIndices(es, n)
    ensures !Has(es, IntKey(n + 1))
  {
    Border(es, 0)
  }

  /** The two facts of MaxN's contract determine it: it is the unique n with
      1..n present and n + 1 absent, and no longer run of indices exists. */
  lemma MaxNIsLargest(es: seq<Entry>, n: nat)
    ensures HasIndices(es, n) ==> n <= MaxN(es)
    ensures HasIndices(es, n) && !Has(es, IntKey(n + 1)) ==> MaxN(es) == n
    ensures MaxN(es) <= |es|
  {
    IndicesBound(es, MaxN(es));
  }

  /** The values at indices 1..MaxN, in index order. */
  function ArrayPart(es: seq<Entry>): (vs: seq<Value>)
    ensures |vs| == MaxN(es)
    ensures forall i :: 0 <= i < |vs| ==> vs[i] == Get(es, IntKey(i + 1))
  {
    IndexValues(es, MaxN(es))
  }

  /** The values at indices 1..n, in index order. */
  function IndexValues(es: seq<Entry>, n: nat): (vs: seq<Value>)
    ensures |vs| == n
    ensures forall i :: 0 <= i < n ==> vs[i] == Get(es, IntKey(i + 1))
  {
    seq(n, i => Get(es, IntKey(i + 1)))
  }

  /** The entries holding indices 1..n, in index order. */
  function EntriesAt(es: seq<Entry>, n: nat): (r: seq<Entry>)
    requires HasIndices(es, n)
    ensures |r| == n
    ensures forall i :: 0 <= i < n ==> r[i] in es && r[i].value == Get(es, IntKey(i + 1))
  {
    seq(n, i requires 0 <= i < n => es[IndexOf(es, IntKey(i + 1))])
  }

  /** The entries holding indices 1..MaxN, in index order. */
  function ArrayEntries(es: seq<Entry>): (r: seq<Entry>)
    ensures |r| == MaxN(es)
    ensures forall i :: 0 <= i < |r| ==> r[i] in es && r[i].value == ArrayPart(es)[i]
  {
    EntriesAt(es, MaxN(es))
  }
}
