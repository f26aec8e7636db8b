/** JSON values, and the addresses of the values inside them. */
module Json {
  import opened Options
  import opened Listings

  /**
   * A JSON value. An object is a finite map, so two objects with the same fields are equal in whatever order they list
   * them.
   */
  datatype Json =
    | Null
    | Bool(truth: bool)
    | Num(number: int)
    | Str(text: string)
    | Arr(items: seq<Json>)
    | Obj(fields: map<string, Json>)

  /** A JSON pointer by its unescaped reference tokens (RFC 6901, section 4). */
  type Path = seq<string>

  /** Two arrays or two objects: the values a diff descends into. */
  predicate SameKind(x: Json, y: Json) {
    (x.Arr? && y.Arr?) || (x.Obj? && y.Obj?)
  }

  function Digit(d: nat): char
    requires d < 10
  {
    '0' + d as char
  }

  /** The reference token of array index `i`. */
  function Name(i: nat): (s: string)
    ensures s != []
  {
    if i < 10 then [Digit(i)] else Name(i / 10) + [Digit(i % 10)]
  }

  function Digits(s: string): Option<nat> {
    if s == [] || !('0' <= s[|s| - 1] <= '9') then None
    else
      var last := (s[|s| - 1] - '0') as nat;
      if |s| == 1 then Some(last)
      else match Digits(s[..|s| - 1])
        case None => None
        case Some(front) => Some(10 * front + last)
  }

  /** The array index a reference token names: digits without leading zeros (RFC 6901, section 4). */
  function Index(s: string): Option<nat> {
    if |s| > 1 && s[0] == '0' then None else Digits(s)
  }

  lemma {:induction false} DigitsOfName(i: nat)
    ensures Digits(Name(i)) == Some(i)
    ensures Name(i)[0] == '0' ==> i == 0
  {
    if i >= 10 {
      DigitsOfName(i / 10);
      assert Name(i)[..|Name(i)| - 1] == Name(i / 10);
    }
  }

  lemma IndexOfName(i: nat)
    ensures Index(Name(i)) == Some(i)
  {
    DigitsOfName(i);
  }

  lemma {:induction false} NameOfDigits(s: string)
    requires Digits(s).Some? && (|s| > 1 ==> s[0] != '0')
    ensures s == Name(Digits(s).value)
  {
    if |s| > 1 {
      var front := s[..|s| - 1];
      NameOfDigits(front);
      assert Digits(front) == Some(0) ==> front == "0";
    }
  }

  /** An index has one name. */
  lemma NameOfIndex(k: string)
    requires Index(k).Some?
    ensures k == Name(Index(k).value)
  {
    NameOfDigits(k);
  }

  /** The element or field of `j` that the token `k` names. */
  function Child(j: Json, k: string): Option<Json> {
    match j
    case Obj(fields) => if k in fields then Some(fields[k]) else None
    case Arr(items) =>
      (match Index(k)
       case Some(i) => if i < |items| then Some(items[i]) else None
       case None => None)
    case _ => None
  }

  /** `j` with its child `k` replaced by `c`. */
  function WithChild(j: Json, k: string, c: Json): Json
    requires Child(j, k).Some?
  {
    match j
    case Obj(fields) => Obj(fields[k := c])
    case Arr(items) => Arr(items[Index(k).value := c])
  }

  /** The value at `p` in `j` (RFC 6901, section 4), `None` when a step of it is missing. */
  function Get(j: Json, p: Path): Option<Json> {
    if p == [] then Some(j)
    else match Child(j, p[0])
      case None => None
      case Some(c) => Get(c, p[1..])
  }

  lemma GetOne(j: Json, k: string)
    ensures Get(j, [k]) == Child(j, k)
  {
    assert [k][1..] == [];
  }

  /** Whether `j` has a property `k` of its own, as an array has its indexes and its `length`. */
  predicate HasOwn(j: Json, k: string) {
    Child(j, k).Some? || (j.Arr? && k == "length")
  }

  predicate ArrayFree(j: Json) {
    match j
    case Arr(_) => false
    case Obj(fields) => forall k | k in fields :: ArrayFree(fields[k])
    case _ => true
  }

  ghost function Listed(s: set<string>): (list: seq<string>)
    ensures Listing(list, s)
  {
    if s == {} then [] else
      var k :| k in s;
      [k] + Listed(s - {k})
  }

  ghost predicate Orders(ord: set<string> -> seq<string>) {
    forall s :: Listing(ord(s), s)
  }

  /**
   * An order in which objects list their fields. Nothing is known of it, so what is proved holds in every order, unless
   * it says what it needs of one.
   */
  type KeyOrder = ord: set<string> -> seq<string> | Orders(ord) ghost witness (s => Listed(s))
}
