/** The Lua values a project script hands to the parsers in src/lua_env.cpp.
    A table is kept as its string-keyed fields, in the order `lua_next`
    visits them, and its array part (`items`, index 1 first). */
module LuaValue {
  import opened Wrappers

  /** `Other` stands for a function, thread or light userdata: a value that
      is neither read as data nor indexable. */
  datatype Value =
    | Nil
    | Boolean(b: bool)
    | Integer(i: int)
    | Str(s: string)
    | Table(fields: seq<Field>, items: seq<Value>)
    | Other

  datatype Field = Field(key: string, value: Value)

  /** The value stored under `key`: a later field overrides an earlier one. */
  function Lookup(fields: seq<Field>, key: string): (r: Option<Value>)
    ensures r.Some? <==> exists i :: 0 <= i < |fields| && fields[i].key == key
    ensures r.Some? ==> exists i :: 0 <= i < |fields| && fields[i] == Field(key, r.value)
  {
    if |fields| == 0 then None
    else if fields[|fields| - 1].key == key then Some(fields[|fields| - 1].value)
    else
      var r := Lookup(fields[..|fields| - 1], key);
      assert forall i :: 0 <= i < |fields| - 1 ==> fields[..|fields| - 1][i] == fields[i];
      r
  }

  /** A later run of fields takes precedence over an earlier one. */
  lemma {:induction false} LookupAppend(a: seq<Field>, b: seq<Field>, key: string)
    ensures Lookup(a + b, key) == if Lookup(b, key).Some? then Lookup(b, key) else Lookup(a, key)
    decreases |b|
  {
    if |b| == 0 {
      assert a + b == a;
    } else {
      var n := |b| - 1;
      assert (a + b)[..|a + b| - 1] == a + b[..n];
      LookupAppend(a, b[..n], key);
    }
  }

  /** `lua_getfield(t, key)` without metamethods: nil when absent or when
      `t` is not a table. */
  function GetField(t: Value, key: string): (r: Value)
    ensures !t.Table? ==> r == Nil
    ensures t.Table? && Lookup(t.fields, key).Some? ==> r == Lookup(t.fields, key).value
  {
    if t.Table? then
      match Lookup(t.fields, key)
      case Some(v) => v
      case None => Nil
    else Nil
  }

  /** `lua_rawgeti(t, k)`: the 1-based array slot, nil outside `1..|items|`. */
  function RawGetI(t: Value, k: int): (r: Value)
    requires t.Table?
    ensures 1 <= k <= |t.items| ==> r == t.items[k - 1]
    ensures !(1 <= k <= |t.items|) ==> r == Nil
  {
    if 1 <= k <= |t.items| then t.items[k - 1] else Nil
  }

  /** `lua_isstring`: strings and numbers. */
  predicate IsString(v: Value) {
    v.Str? || v.Integer?
  }

  /** Decimal text of a natural number. */
  function Digits(n: nat): (r: string)
    ensures |r| > 0
    ensures forall k :: 0 <= k < |r| ==> '0' <= r[k] <= '9'
  {
    var d := [(48 + n % 10) as char];
    if n < 10 then d else Digits(n / 10) + d
  }

  /** `lua_tostring` on a string or an integer. */
  function ToStr(v: Value): (r: string)
    requires IsString(v)
    ensures v.Str? ==> r == v.s
    ensures v.Integer? && v.i >= 0 ==> r == Digits(v.i)
    ensures v.Integer? && v.i < 0 ==> r == "-" + Digits(-v.i)
  {
    match v
    case Str(s) => s
    case Integer(i) => if i < 0 then "-" + Digits(-i) else Digits(i)
  }

  /** `lua_next` visits a table's array part before its other fields. The
      first key it hands back is the integer 1, which `lua_tostring(L, -2)`
      turns into this string in place on the stack. */
  const FirstItemKey := "1"

  /** What the following `lua_next` then raises: the string key "1" is not
      a key of the table. */
  const NextKeyError := "invalid key to 'next'"

  /** The value of a run of decimal digits, the last one the units. */
  function DigitsValue(s: string): nat
    requires forall k :: 0 <= k < |s| ==> '0' <= s[k] <= '9'
  {
    if |s| == 0 then 0
    else DigitsValue(s[..|s| - 1]) * 10 + (s[|s| - 1] as int - 48)
  }

  /** The 64-bit range of a Lua integer. */
  predicate InInt64(n: int) {
    -0x8000_0000_0000_0000 <= n < 0x8000_0000_0000_0000
  }

  /** The integer a string converts to: an optional sign, then one or more
      decimal digits, denoting a value within the 64-bit range. */
  function Numeral(s: string): (r: Option<int>)
    ensures r.Some? ==> InInt64(r.value)
    ensures r.Some? ==> |s| > 0 && (s[0] == '-' || s[0] == '+' || '0' <= s[0] <= '9')
  {
    var body := if |s| > 0 && (s[0] == '-' || s[0] == '+') then s[1..] else s;
    if |body| == 0 || !(forall k :: 0 <= k < |body| ==> '0' <= body[k] <= '9') then None
    else
      var n: int := if |s| > 0 && s[0] == '-' then -(DigitsValue(body) as int) else DigitsValue(body);
      if InInt64(n) then Some(n) else None
  }

  /** `lua_tointeger`: an integer converts, a string converts when it is a
      decimal numeral, and anything else gives 0. */
  function ToInteger(v: Value): (r: int)
    ensures v.Integer? ==> r == v.i
    ensures v.Str? && Numeral(v.s).Some? ==> r == Numeral(v.s).value
    ensures !v.Integer? && !(v.Str? && Numeral(v.s).Some?) ==> r == 0
  {
    if v.Integer? then v.i
    else if v.Str? && Numeral(v.s).Some? then Numeral(v.s).value
    else 0
  }

  /** Reading back the decimal text of a number gives the number. */
  lemma {:induction false} DigitsValueOfDigits(n: nat)
    ensures DigitsValue(Digits(n)) == n
  {
    var d := [(48 + n % 10) as char];
    if n >= 10 {
      DigitsValueOfDigits(n / 10);
      var s := Digits(n / 10) + d;
      assert s[..|s| - 1] == Digits(n / 10);
    }
  }

  /** The decimal text of a non-negative number reads back as it. */
  lemma NumeralOfDigits(n: nat)
    requires n < 0x8000_0000_0000_0000
    ensures Numeral(Digits(n)) == Some(n)
  {
    var s := Digits(n);
    DigitsValueOfDigits(n);
    assert '0' <= s[0] <= '9';
  }

  /** So does the text of a negative number, minus sign first. */
  lemma NumeralOfNegative(n: nat)
    requires 0 < n <= 0x8000_0000_0000_0000
    ensures Numeral("-" + Digits(n)) == Some(-(n as int))
  {
    var s := "-" + Digits(n);
    DigitsValueOfDigits(n);
    assert s[0] == '-' && s[1..] == Digits(n);
  }

  /** An integer converted to a string by `lua_tostring` converts back to
      the same integer with `lua_tointeger`. */
  lemma ToIntegerOfToStr(i: int)
    requires InInt64(i)
    ensures ToInteger(Str(ToStr(Integer(i)))) == i
  {
    if i < 0 {
      NumeralOfNegative(-i);
    } else {
      NumeralOfDigits(i);
    }
  }

  /** A conversion to `int32_t` (two's complement wrap-around). */
  function Int32(x: int): (r: int)
    ensures -0x8000_0000 <= r < 0x8000_0000
    ensures (r - x) % 0x1_0000_0000 == 0
    ensures -0x8000_0000 <= x < 0x8000_0000 ==> r == x
  {
    var m := x % 0x1_0000_0000;
    if m < 0x8000_0000 then m else m - 0x1_0000_0000
  }

  /** The type name Lua reports when indexing a value fails. */
  function TypeName(v: Value): string {
    match v
    case Nil => "nil"
    case Boolean(_) => "boolean"
    case Integer(_) => "number"
    case Str(_) => "string"
    case Table(_, _) => "table"
    case Other => "function"
  }
}
