/** The string operations the suite's flags and messages rely on: `strings.TrimSpace`,
    `strings.Split`, `strings.Join` and decimal printing. */
module Text {

  /** `unicode.IsSpace`. */
  predicate IsSpace(c: char) {
    || '\t' <= c <= '\r' || c == ' ' || c == '\U{85}' || c == '\U{A0}'
    || c == '\U{1680}' || '\U{2000}' <= c <= '\U{200A}' || c == '\U{2028}' || c == '\U{2029}'
    || c == '\U{202F}' || c == '\U{205F}' || c == '\U{3000}'
  }

  function TrimLeft(s: string): (r: string)
    ensures |r| <= |s| && r == s[|s| - |r|..]
    ensures r != [] ==> !IsSpace(r[0])
    ensures forall k :: 0 <= k < |s| - |r| ==> IsSpace(s[k])
  {
    if s != [] && IsSpace(s[0]) then TrimLeft(s[1..]) else s
  }

  function TrimRight(s: string): (r: string)
    ensures |r| <= |s| && r == s[..|r|]
    ensures r != [] ==> !IsSpace(r[|r| - 1])
    ensures forall k :: |r| <= k < |s| ==> IsSpace(s[k])
  {
    if s != [] && IsSpace(s[|s| - 1]) then TrimRight(s[..|s| - 1]) else s
  }

  function TrimSpace(s: string): string {
    TrimRight(TrimLeft(s))
  }

  /** Nothing is left of the text once it is trimmed (`TrimSpaceMeaning`). */
  predicate AllSpace(s: string) {
    forall c :: c in s ==> IsSpace(c)
  }

  /** Neither end is white space. */
  predicate Trimmed(s: string) {
    s != [] ==> !IsSpace(s[0]) && !IsSpace(s[|s| - 1])
  }

  lemma TrimSpaceMeaning(s: string)
    ensures Trimmed(TrimSpace(s))
    ensures forall c :: c in TrimSpace(s) ==> c in s
    ensures TrimSpace(s) == [] <==> AllSpace(s)
    ensures Trimmed(s) ==> TrimSpace(s) == s
  {
    var l := TrimLeft(s);
    var r := TrimRight(l);
    if r != [] {
      assert r[0] == l[0];
      assert !AllSpace(s) by { assert l[0] in s; }
    } else {
      forall c | c in s ensures IsSpace(c) {
        var k :| 0 <= k < |s| && s[k] == c;
        if k >= |s| - |l| {
          assert s[k] == l[k - (|s| - |l|)];
        }
      }
    }
    if s != [] && Trimmed(s) {
      assert |l| == |s|;
      assert |r| == |s|;
    }
  }

  predicate CommaFree(s: string) {
    ',' !in s
  }

  /** A comma opens a new field; any other character belongs to the first one. */
  function Prepend(c: char, fields: seq<string>): (r: seq<string>)
    requires fields != []
    ensures r != []
  {
    if c == ',' then [[]] + fields else [[c] + fields[0]] + fields[1..]
  }

  /** `strings.Split(s, ",")`. */
  function Split(s: string): (fields: seq<string>)
    ensures fields != []
  {
    if s == [] then [[]] else Prepend(s[0], Split(s[1..]))
  }

  /** `strings.Join(items, ",")`. */
  function Join(items: seq<string>): string {
    if items == [] then []
    else if |items| == 1 then items[0]
    else items[0] + "," + Join(items[1..])
  }

  lemma {:induction false} SplitFieldsCommaFree(s: string)
    ensures forall f :: f in Split(s) ==> CommaFree(f)
  {
    if s != [] {
      SplitFieldsCommaFree(s[1..]);
      var rest := Split(s[1..]);
      assert rest[0] in rest;
    }
  }

  lemma {:induction false} SplitCommaFree(s: string)
    requires CommaFree(s)
    ensures Split(s) == [s]
  {
    if s != [] {
      SplitCommaFree(s[1..]);
      assert s == [s[0]] + s[1..];
    }
  }

  lemma PrependConcat(c: char, a: seq<string>, b: seq<string>)
    requires a != []
    ensures Prepend(c, a + b) == Prepend(c, a) + b
  {
    assert (a + b)[1..] == a[1..] + b;
  }

  lemma {:induction false} SplitConcat(a: string, b: string)
    ensures Split(a + "," + b) == Split(a) + Split(b)
  {
    var whole := a + "," + b;
    if a == [] {
      assert whole[1..] == b;
    } else {
      assert whole[0] == a[0] && whole[1..] == a[1..] + "," + b;
      SplitConcat(a[1..], b);
      PrependConcat(a[0], Split(a[1..]), Split(b));
    }
  }

  /** What one field contributes: its trimmed text, unless that is empty. */
  function Kept(field: string): seq<string> {
    var item := TrimSpace(field);
    if item != [] then [item] else []
  }

  function Keep(fields: seq<string>): seq<string> {
    if fields == [] then [] else Kept(fields[0]) + Keep(fields[1..])
  }

  lemma {:induction false} KeepConcat(a: seq<string>, b: seq<string>)
    ensures Keep(a + b) == Keep(a) + Keep(b)
  {
    if a == [] {
      assert a + b == b;
    } else {
      var head := Kept(a[0]);
      assert (a + b)[0] == a[0] && (a + b)[1..] == a[1..] + b;
      KeepConcat(a[1..], b);
      assert Keep(a + b) == head + (Keep(a[1..]) + Keep(b)) == (head + Keep(a[1..])) + Keep(b);
    }
  }

  lemma KeepNext(fields: seq<string>, i: nat)
    requires i < |fields|
    ensures var kept, item := Keep(fields[..i]), TrimSpace(fields[i]);
            Keep(fields[..i + 1]) == if item != "" then kept + [item] else kept
  {
    assert fields[..i + 1] == fields[..i] + [fields[i]];
    KeepConcat(fields[..i], [fields[i]]);
    assert Keep([fields[i]]) == Kept(fields[i]) + Keep([]);
  }

  /** The list a comma-separated flag value stands for. */
  function ListOf(s: string): seq<string> {
    Keep(Split(s))
  }

  /** What a list read from a flag is made of. */
  predicate ListItem(s: string) {
    s != [] && Trimmed(s) && CommaFree(s)
  }

  method SplitList(s: string) returns (out: seq<string>)
    ensures out == ListOf(s)
  {
    out := [];
    var fields := Split(s);
    for i := 0 to |fields|
      invariant out == Keep(fields[..i])
    {
      var item := TrimSpace(fields[i]);
      KeepNext(fields, i);
      if item != "" {
        out := out + [item];
      }
    }
    assert fields[..|fields|] == fields;
  }

  lemma {:induction false} KeepItems(fields: seq<string>)
    requires forall f :: f in fields ==> CommaFree(f)
    ensures forall item :: item in Keep(fields) ==> ListItem(item)
  {
    if fields != [] {
      assert fields[0] in fields;
      TrimSpaceMeaning(fields[0]);
      KeepItems(fields[1..]);
    }
  }

  /** Every item of a parsed list is trimmed, non-empty and free of commas. */
  lemma ListItems(s: string)
    ensures forall item :: item in ListOf(s) ==> ListItem(item)
  {
    SplitFieldsCommaFree(s);
    KeepItems(Split(s));
  }

  /** Parsing distributes over a comma. */
  lemma ListConcat(a: string, b: string)
    ensures ListOf(a + "," + b) == ListOf(a) + ListOf(b)
  {
    SplitConcat(a, b);
    KeepConcat(Split(a), Split(b));
  }

  lemma SingleItem(item: string)
    requires ListItem(item)
    ensures ListOf(item) == [item]
  {
    SplitCommaFree(item);
    TrimSpaceMeaning(item);
    assert Keep([item]) == [item] + Keep([]);
  }

  /** Printing a list (`csvFlag.String`) and parsing it again (`csvFlag.Set`) is the identity
      exactly on the lists that parsing can produce. */
  lemma {:induction false} ListRoundTrip(items: seq<string>)
    ensures ListOf(Join(items)) == items <==> forall item :: item in items ==> ListItem(item)
  {
    if ListOf(Join(items)) == items {
      ListItems(Join(items));
    } else if forall item :: item in items ==> ListItem(item) {
      JoinThenSplit(items);
      assert false;
    }
  }

  lemma {:induction false} JoinThenSplit(items: seq<string>)
    requires forall item :: item in items ==> ListItem(item)
    ensures ListOf(Join(items)) == items
  {
    if items == [] {
      assert Keep([[]]) == Keep([]) == [];
    } else if |items| == 1 {
      SingleItem(items[0]);
    } else {
      ListConcat(items[0], Join(items[1..]));
      SingleItem(items[0]);
      JoinThenSplit(items[1..]);
    }
  }

  function Digit(d: nat): char
    requires d < 10
  {
    ('0' as int + d) as char
  }

  /** `fmt.Sprintf("%d", n)` for a natural number. */
  function Decimal(n: nat): (s: string)
    ensures s != []
    ensures forall c :: c in s ==> '0' <= c <= '9'
  {
    if n < 10 then [Digit(n)] else Decimal(n / 10) + [Digit(n % 10)]
  }

  function Pow10(k: nat): (p: nat)
    ensures p >= 1
  {
    if k == 0 then 1 else 10 * Pow10(k - 1)
  }

  /** A decimal has at most `k` digits exactly below the k-th power of ten. */
  lemma {:induction false} DecimalLength(n: nat, k: nat)
    requires k >= 1
    ensures |Decimal(n)| <= k <==> n < Pow10(k)
  {
    if k == 1 {
      if n >= 10 {
        assert |Decimal(n / 10)| >= 1;
      }
    } else if n < 10 {
      assert Pow10(k) == 10 * Pow10(k - 1);
    } else {
      DecimalLength(n / 10, k - 1);
      assert n / 10 < Pow10(k - 1) <==> n < 10 * Pow10(k - 1);
    }
  }

  lemma {:induction false} DecimalInjective(m: nat, n: nat)
    requires Decimal(m) == Decimal(n)
    ensures m == n
  {
    var s := Decimal(m);
    if m < 10 || n < 10 {
      DecimalLength(m, 1);
      DecimalLength(n, 1);
      assert s[0] == Digit(m) == Digit(n);
    } else {
      assert s[..|s| - 1] == Decimal(m / 10);
      assert Decimal(n)[..|s| - 1] == Decimal(n / 10);
      assert s[|s| - 1] == Digit(m % 10) == Digit(n % 10);
      DecimalInjective(m / 10, n / 10);
    }
  }
}
