/** Decoded JSON values and the few Python operations the client applies
    to them: `dict.get`, iteration inside a list comprehension, truth
    testing and `str()` inside an f-string. */
module JsonValues {
  import opened Wrappers

  /** A value as `json.loads` returns it. An object is a dict; only lookups
      by key matter for this model, so it is a map (duplicate keys in the
      text have already been resolved by the decoder). */
  datatype Json =
    | JNull
    | JBool(b: bool)
    | JInt(i: int)
    | JString(s: string)
    | JArray(elems: seq<Json>)
    | JObject(fields: map<string, Json>)

  /** The `{}` passed as the default of a section lookup. */
  const EmptyObject: Json := JObject(map[])

  /** Python's `d.get(key, default)`: the stored value when the key is
      present (even if that value is `null`), the default when it is absent,
      and an exception (None here) when `d` is not a dict at all. */
  function Get(d: Json, key: string, default: Json): Option<Json>
  {
    match d
    case JObject(fields) => Some(if key in fields then fields[key] else default)
    case _ => None
  }

  /** Reference view of a nested value: follow `path` key by key through
      objects; None when some key is absent or some step is not an object. */
  function At(j: Json, path: seq<string>): Option<Json>
    decreases path
  {
    if path == [] then Some(j)
    else match j
      case JObject(fields) => if path[0] in fields then At(fields[path[0]], path[1..]) else None
      case _ => None
  }

  /** The value at `path`, or `default` when nothing is there. */
  function AtOr(j: Json, path: seq<string>, default: Json): Json
  {
    match At(j, path)
    case Some(v) => v
    case None => default
  }

  /** Whatever is at `path` is a dict, or nothing is there. */
  predicate ObjectOrAbsent(j: Json, path: seq<string>)
  {
    At(j, path).None? || At(j, path).value.JObject?
  }

  /** Following `p + q` is following `p`, then `q` from where `p` ended. */
  lemma {:induction false} AtAppend(j: Json, p: seq<string>, q: seq<string>)
    ensures At(j, p + q) == match At(j, p) case None => None case Some(v) => At(v, q)
    decreases p
  {
    if p == [] {
      assert p + q == q;
    } else {
      assert (p + q)[0] == p[0];
      assert (p + q)[1..] == p[1..] + q;
      match j
      case JObject(fields) =>
        if p[0] in fields {
          AtAppend(fields[p[0]], p[1..], q);
        }
      case _ =>
    }
  }

  /** One step of a `.get` chain whose sections default to `{}`: it
      succeeds exactly when the current section is a dict or absent, and then
      yields the value at the extended path `path + [key]`, or the step's
      default. The extended path is a parameter so that callers can name it
      as a literal. */
  lemma GetStep(j: Json, path: seq<string>, key: string, default: Json, extended: seq<string>)
    requires extended == path + [key]
    ensures Get(AtOr(j, path, EmptyObject), key, default).Some? <==> ObjectOrAbsent(j, path)
    ensures ObjectOrAbsent(j, path) ==>
      Get(AtOr(j, path, EmptyObject), key, default) == Some(AtOr(j, extended, default))
  {
    AtAppend(j, path, [key]);
  }

  /** Apply `f` to every element, in order, failing if any application fails. */
  function MapEach<T>(xs: seq<Json>, f: Json -> Option<T>): (r: Option<seq<T>>)
    ensures r.Some? <==> forall i :: 0 <= i < |xs| ==> f(xs[i]).Some?
    ensures r.Some? ==> |r.value| == |xs| && forall i :: 0 <= i < |xs| ==> f(xs[i]) == Some(r.value[i])
  {
    if xs == [] then Some([])
    else
      var y :- f(xs[0]);
      var ys :- MapEach(xs[1..], f);
      assert forall i :: 1 <= i < |xs| ==> xs[i] == xs[1..][i - 1];
      Some([y] + ys)
  }

  /** `[f(x) for x in src]` where `f` starts with `x.get(...)`. A list is
      iterated element by element. A dict iterates over its keys and a string
      over its characters: both are strings, on which `.get` raises, so either
      gives `[]` when empty and fails otherwise. Numbers, booleans and `None`
      are not iterable. */
  function Comprehend<T>(src: Json, f: Json -> Option<T>): Option<seq<T>>
  {
    match src
    case JArray(xs) => MapEach(xs, f)
    case JObject(fields) => if fields == map[] then Some([]) else None
    case JString(s) => if s == "" then Some([]) else None
    case _ => None
  }

  /** A source the comprehension can run over when its body needs dict
      elements: absent, a list of dicts, an empty dict or an empty string. */
  predicate IterableOfObjects(src: Json)
  {
    match src
    case JArray(xs) => forall i :: 0 <= i < |xs| ==> xs[i].JObject?
    case JObject(fields) => fields == map[]
    case JString(s) => s == ""
    case _ => false
  }

  /** The elements a comprehension over `src` visits when it succeeds. */
  function Elements(src: Json): seq<Json>
  {
    match src
    case JArray(xs) => xs
    case _ => []
  }

  /** A comprehension whose body fails exactly on non-dicts succeeds exactly
      on the sources of IterableOfObjects, with one result per element, in
      order. */
  lemma ComprehendObjects<T>(src: Json, f: Json -> Option<T>)
    requires forall x :: f(x).Some? <==> x.JObject?
    ensures Comprehend(src, f).Some? <==> IterableOfObjects(src)
    ensures Comprehend(src, f).Some? ==>
      && |Comprehend(src, f).value| == |Elements(src)|
      && forall i :: 0 <= i < |Elements(src)| ==> f(Elements(src)[i]) == Some(Comprehend(src, f).value[i])
  {
  }

  /** Python truth testing: `None`, `False`, `0`, `""`, `[]` and `{}` are
      false, everything else is true. */
  predicate Truthy(j: Json)
  {
    match j
    case JNull => false
    case JBool(b) => b
    case JInt(i) => i != 0
    case JString(s) => s != ""
    case JArray(xs) => xs != []
    case JObject(fields) => fields != map[]
  }

  /** Python's `str()` of a scalar, as an f-string renders it. */
  function Display(j: Json): string
  {
    match j
    case JString(s) => s
    case JNull => "None"
    case JBool(b) => if b then "True" else "False"
    case JInt(i) => if i < 0 then "-" + Digits(-i) else Digits(i)
    case JArray(_) => "[...]"
    case JObject(_) => "{...}"
  }

  /** A non-negative integer is shown as its decimal spelling, without
      leading zeros. */
  lemma DisplayNonNegative(i: nat)
    ensures DecimalValue(Display(JInt(i))) == i
    ensures |Display(JInt(i))| > 1 ==> Display(JInt(i))[0] != '0'
  {
    assert Display(JInt(i)) == Digits(i);
    DigitsValue(i);
  }

  /** A negative integer is shown as a minus sign followed by the decimal
      spelling of its magnitude, without leading zeros. */
  lemma DisplayNegative(i: int)
    requires i < 0
    ensures Display(JInt(i))[0] == '-'
    ensures DecimalValue(Display(JInt(i))[1..]) == -i
    ensures Display(JInt(i))[1] != '0'
  {
    var r := Digits(-i);
    assert Display(JInt(i)) == "-" + r;
    assert ("-" + r)[1..] == r;
    DigitsValue(-i);
  }

  /** Decimal digits of `n`, most significant first, no leading zeros. */
  function Digits(n: nat): (r: string)
    ensures |r| > 0
    ensures forall k :: 0 <= k < |r| ==> '0' <= r[k] <= '9'
    ensures |r| > 1 ==> r[0] != '0'
    ensures n > 0 ==> r[0] != '0'
    decreases n
  {
    var d := ['0' + (n % 10) as char];
    if n < 10 then d else Digits(n / 10) + d
  }

  /** The number a string of decimal digits spells, most significant first. */
  function DecimalValue(s: string): int
    decreases |s|
  {
    if s == [] then 0
    else DecimalValue(s[..|s| - 1]) * 10 + (s[|s| - 1] as int - '0' as int)
  }

  /** Digits spells `n`: reading the text back gives the number. */
  lemma {:induction false} DigitsValue(n: nat)
    ensures DecimalValue(Digits(n)) == n
    decreases n
  {
    var d := ['0' + (n % 10) as char];
    if n >= 10 {
      var r := Digits(n / 10) + d;
      assert r[..|r| - 1] == Digits(n / 10);
      DigitsValue(n / 10);
    } else {
      assert d[..0] == [];
    }
  }
}
