/**
 * The PHP values the builder stores and passes on: field arguments, default
 * data, search fields, filters and array schemas.
 */
module PhpValues {
  import opened Options
  import opened PhpArrays

  /** An array key: PHP keys are integers or strings. */
  datatype Key = IntKey(n: int) | StrKey(s: string)

  /** The scalar and array values a configuration array can hold. */
  datatype Value =
    | Null
    | Bool(b: bool)
    | Int(i: int)
    | Str(s: string)
    | Arr(entries: OrderedMap<Key, Value>)

  /** A PHP array of configuration values, such as one field's arguments. */
  type Args = OrderedMap<Key, Value>

  /** `$a[$k]`: the value at `k`, or null (with a notice) when it is absent. */
  function Lookup(a: Args, k: Key): (v: Value)
    ensures HasKey(a, k) ==> Get(a, k) == Some(v)
    ensures !HasKey(a, k) ==> v == Null
  {
    Get(a, k).GetOr(Null)
  }

  /** `isset($a[$k])`: the key is present and its value is not null. */
  predicate IsSet(a: Args, k: Key): (b: bool)
    ensures b <==> HasKey(a, k) && Lookup(a, k) != Null
  {
    Get(a, k).Some? && Get(a, k).value != Null
  }

  /** `$a[$k] ?? $default`. */
  function Coalesce(a: Args, k: Key, default: Value): (v: Value)
    ensures IsSet(a, k) ==> Get(a, k) == Some(v)
    ensures !IsSet(a, k) ==> v == default
  {
    if IsSet(a, k) then Lookup(a, k) else default
  }

  /** PHP's conversion to bool: false, 0, "", "0", [] and null are falsy. */
  predicate Truthy(v: Value): (b: bool)
    ensures !b <==> v in {Null, Bool(false), Int(0), Str(""), Str("0"), Arr([])}
  {
    match v
    case Null => false
    case Bool(b) => b
    case Int(i) => i != 0
    case Str(s) => s != "" && s != "0"
    case Arr(entries) => entries != []
  }

  /**
   * Passing `v` to a parameter declared `string` without strict types: a
   * string passes as it is, an integer or a boolean is converted, and null
   * or an array is a TypeError (None).
   */
  function StringParam(v: Value): (r: Option<string>)
    ensures r.None? <==> v.Null? || v.Arr?
    ensures v.Str? ==> r == Some(v.s)
  {
    match v
    case Str(s) => Some(s)
    case Int(i) => Some(IntToString(i))
    case Bool(b) => Some(if b then "1" else "")
    case Null => None
    case Arr(_) => None
  }

  /** The decimal representation PHP gives an integer. */
  function IntToString(i: int): string {
    if i < 0 then "-" + NatToString(-i) else NatToString(i)
  }

  function NatToString(n: nat): string
    decreases n
  {
    var digit := ["0", "1", "2", "3", "4", "5", "6", "7", "8", "9"][n % 10];
    if n < 10 then digit else NatToString(n / 10) + digit
  }

  /** A PHP list: its keys are 0, 1, 2, ... in order. */
  predicate IsList(a: Args) {
    forall i :: 0 <= i < |a| ==> a[i].0 == IntKey(i)
  }

  /**
   * The union of two lists matches positions, not values: the result is the
   * left list followed by the right list's entries past the left's length.
   * So a stored list of search fields replaces the first entries of the
   * incoming list instead of being added to it.
   */
  lemma ListUnion(l: Args, r: Args)
    requires IsList(l) && IsList(r)
    ensures Union(l, r) == if |r| <= |l| then l else l + r[|l|..]
  {
    var ks := Keys(l);
    var n := if |r| <= |l| then |r| else |l|;
    forall j | 0 <= j < n ensures r[j].0 in ks {
      assert ks[j] == IntKey(j);
    }
    WithoutPrefix(r, ks, n);
    assert r[n..] == [] || n == |l|;
  }
}
