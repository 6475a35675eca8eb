/**
 * The text `getVariablesAsString` makes of the store
 * (src/main/java/org/taboola/ExpressionCalculator.java): `key=value` per variable, keys
 * ascending, joined by commas inside parentheses. `Read` takes such a text apart again;
 * that it gives back the store shows the text loses nothing.
 */
module VariablesText {
  import opened ExpressionUtils
  import opened Evaluator

  function DigitChar(d: nat): char
    requires d < 10
  {
    (d + '0' as int) as char
  }

  /** The decimal digits of `n`, without leading zeros. */
  function NatToString(n: nat): (s: string)
    ensures IsNumber(s) && NumberValue(s) == n
    ensures |s| > 1 ==> s[0] != '0'
  {
    if n < 10 then [DigitChar(n)]
    else
      var prefix := NatToString(n / 10);
      var s := prefix + [DigitChar(n % 10)];
      assert s[..|s| - 1] == prefix;
      s
  }

  /** The value of `-digits` or `digits`. */
  function DecimalValue(t: string): int {
    if |t| > 1 && t[0] == '-' && IsNumber(t[1..]) then -(NumberValue(t[1..]) as int)
    else if IsNumber(t) then NumberValue(t)
    else 0
  }

  predicate NoComma(s: string) {
    forall i :: 0 <= i < |s| ==> s[i] != ','
  }

  /** `Integer.toString`: a minus sign before the digits of a negative value; the text
      reads back to the value and holds no comma. */
  function IntToString(v: int): (s: string)
    ensures DecimalValue(s) == v
    ensures NoComma(s)
  {
    if v < 0 then
      var digits := NatToString(-v);
      var s := "-" + digits;
      assert s[1..] == digits;
      s
    else
      var s := NatToString(v);
      assert IsDigit(s[0]);
      s
  }

  /** A least element of a nonempty finite set of characters. */
  lemma {:induction false} MinimumExists(keys: set<char>)
    requires keys != {}
    ensures exists m :: m in keys && forall c :: c in keys ==> m <= c
    decreases |keys|
  {
    var k :| k in keys;
    if keys != {k} {
      MinimumExists(keys - {k});
      var m :| m in keys - {k} && forall c :: c in keys - {k} ==> m <= c;
      var least := if k < m then k else m;
      forall c | c in keys
        ensures least <= c
      {
        if c != k {
          assert c in keys - {k};
        }
      }
    } else {
      assert forall c :: c in keys ==> k <= c;
    }
  }

  /** The keys in ascending order, as `Map.Entry.comparingByKey()` sorts `Character`s. */
  function SortedKeys(keys: set<char>): (r: seq<char>)
    ensures forall i, j :: 0 <= i < j < |r| ==> r[i] < r[j]
    ensures forall c :: c in keys <==> c in r
    ensures |r| == |keys|
    decreases |keys|
  {
    if keys == {} then []
    else
      MinimumExists(keys);
      var m :| m in keys && forall c :: c in keys ==> m <= c;
      [m] + SortedKeys(keys - {m})
  }

  /** One entry, `key=value`. */
  function Entry(key: char, value: int): string {
    [key] + "=" + IntToString(value)
  }

  /** The entries of `m` for the keys in `keys`, in that order. */
  function Entries(m: Store, keys: seq<char>): (r: seq<string>)
    requires forall k :: k in keys ==> k in m
  {
    seq(|keys|, i requires 0 <= i < |keys| => Entry(keys[i], m[keys[i]]))
  }

  /** `Collectors.joining(",")`: the parts with a comma between neighbours. */
  function Join(parts: seq<string>): string {
    if |parts| == 0 then ""
    else if |parts| == 1 then parts[0]
    else parts[0] + "," + Join(parts[1..])
  }

  /** `(k1=v1,k2=v2,...)` with the keys ascending; `()` for no variables. */
  function Render(m: Store): (s: string)
    ensures |s| >= 2 && s[0] == '(' && s[|s| - 1] == ')'
  {
    "(" + Join(Entries(m, SortedKeys(m.Keys))) + ")"
  }

  // Reading the text back.

  /** The pieces of `s` between commas. */
  function Split(s: string): (parts: seq<string>)
    ensures |parts| > 0
  {
    if s == [] then [""]
    else
      var rest := Split(s[1..]);
      if s[0] == ',' then [""] + rest else [[s[0]] + rest[0]] + rest[1..]
  }

  /** The store the entries `key=value` describe, later entries winning. */
  function FromEntries(entries: seq<string>): Store {
    if entries == [] then map[]
    else
      var e := entries[|entries| - 1];
      var key := if |e| > 0 then e[0] else ' ';
      var value := if |e| >= 2 then DecimalValue(e[2..]) else 0;
      FromEntries(entries[..|entries| - 1])[key := value]
  }

  /** The store a text of the form `(k1=v1,...)` describes. */
  function Read(s: string): Store {
    if |s| < 2 then map[]
    else
      var inner := s[1..|s| - 1];
      if inner == [] then map[] else FromEntries(Split(inner))
  }

  lemma {:induction false} SplitNoComma(a: string)
    requires NoComma(a)
    ensures Split(a) == [a]
    decreases |a|
  {
    if a != [] {
      SplitNoComma(a[1..]);
      assert [a[0]] + a[1..] == a;
    }
  }

  lemma {:induction false} SplitAtComma(a: string, b: string)
    requires NoComma(a)
    ensures Split(a + "," + b) == [a] + Split(b)
    decreases |a|
  {
    var s := a + "," + b;
    if a == [] {
      assert s == "," + b && s[1..] == b;
    } else {
      assert s[0] == a[0] && s[1..] == a[1..] + "," + b;
      SplitAtComma(a[1..], b);
      assert [a[0]] + a[1..] == a;
    }
  }

  /** Splitting at the commas undoes joining with commas, when no part holds a comma. */
  lemma {:induction false} SplitJoin(parts: seq<string>)
    requires |parts| > 0 && forall i :: 0 <= i < |parts| ==> NoComma(parts[i])
    ensures Split(Join(parts)) == parts
    decreases |parts|
  {
    if |parts| == 1 {
      SplitNoComma(parts[0]);
    } else {
      SplitJoin(parts[1..]);
      SplitAtComma(parts[0], Join(parts[1..]));
    }
  }

  /** An entry holds no comma unless its key is one: the digits and the sign hold none. */
  lemma EntryShape(key: char, value: int)
    ensures var e := Entry(key, value);
            |e| >= 2 && e[0] == key && e[2..] == IntToString(value)
            && (key != ',' ==> NoComma(e))
  {
    var digits := IntToString(value);
    var e := Entry(key, value);
    assert e[2..] == digits;
    assert forall i :: 2 <= i < |e| ==> e[i] == digits[i - 2];
  }

  /** Reading the entries for `keys` back gives `m` on exactly those keys. */
  lemma {:induction false} ReadEntries(m: Store, keys: seq<char>)
    requires forall k :: k in keys ==> k in m
    ensures forall k :: k in FromEntries(Entries(m, keys)) <==> k in keys
    ensures forall k :: k in keys ==> FromEntries(Entries(m, keys))[k] == m[k]
    decreases |keys|
  {
    if keys != [] {
      var n := |keys| - 1;
      var entries := Entries(m, keys);
      var key := keys[n];
      assert entries[..n] == Entries(m, keys[..n]);
      ReadEntries(m, keys[..n]);
      EntryShape(key, m[key]);
      var before := FromEntries(entries[..n]);
      assert FromEntries(entries) == before[key := m[key]];
      assert forall k :: k in keys <==> k in keys[..n] || k == key;
    }
  }

  /** `getVariablesAsString` loses nothing: the text reads back to the store, for any store
      without a comma for a name (the calculator's names are lowercase letters). */
  lemma ReadRender(m: Store)
    requires ',' !in m
    ensures Read(Render(m)) == m
  {
    if m == map[] {
      RenderEmpty(m);
    } else {
      var keys := SortedKeys(m.Keys);
      ReadJoined(m, keys);
      EntriesDescribe(m, keys);
    }
  }

  /** The entries for every key of the store describe the store itself. */
  lemma EntriesDescribe(m: Store, keys: seq<char>)
    requires forall k :: k in keys <==> k in m
    ensures FromEntries(Entries(m, keys)) == m
  {
    ReadEntries(m, keys);
  }

  /** The text of nonempty entries reads back to the store the entries describe. */
  lemma ReadJoined(m: Store, keys: seq<char>)
    requires keys == SortedKeys(m.Keys) && m != map[] && ',' !in m
    ensures Read(Render(m)) == FromEntries(Entries(m, keys))
  {
    var entries := Entries(m, keys);
    var inner := Join(entries);
    var s := Render(m);
    assert s == "(" + inner + ")";
    assert s[1..|s| - 1] == inner;
    EntriesNoComma(m, keys);
    EntryShape(keys[0], m[keys[0]]);
    NonEmptyJoin(entries);
    SplitJoin(entries);
  }

  /** No entry holds a comma when no key is one. */
  lemma EntriesNoComma(m: Store, keys: seq<char>)
    requires forall k :: k in keys ==> k in m
    requires ',' !in keys
    ensures forall i :: 0 <= i < |keys| ==> NoComma(Entries(m, keys)[i])
  {
    var entries := Entries(m, keys);
    forall i | 0 <= i < |entries|
      ensures NoComma(entries[i])
    {
      EntryShape(keys[i], m[keys[i]]);
    }
  }

  lemma NonEmptyJoin(parts: seq<string>)
    requires |parts| > 0 && |parts[0]| > 0
    ensures |Join(parts)| > 0
  {
  }

  /** No variables give `()`, and only they do. */
  lemma RenderEmpty(m: Store)
    ensures Render(m) == "()" <==> m == map[]
  {
    var keys := SortedKeys(m.Keys);
    var entries := Entries(m, keys);
    var s := Render(m);
    assert s == "(" + Join(entries) + ")";
    if m != map[] {
      var k :| k in m;
      assert k in keys;
      EntryShape(keys[0], m[keys[0]]);
      NonEmptyJoin(entries);
    }
  }
}
