/** Canonical JSON text: keys sorted, strings quoted by section 7 of RFC 8259.
    `compact` is the hash-preimage form (no spaces); the spaced form separates
    with ", " and ": " as the builder checksum does.  A reader of JSON text gets the
    printed value back, members in ascending order of their keys. */
module CanonicalText {
  import opened Json
  import opened JsonReader

  // ----- key order -----

  predicate KeyLeq(a: string, b: string) {
    a == "" || (b != "" && (a[0] < b[0] || (a[0] == b[0] && KeyLeq(a[1..], b[1..]))))
  }

  lemma KeyLeqTotal(a: string, b: string)
    ensures KeyLeq(a, b) || KeyLeq(b, a)
  {
    if a != "" && b != "" && a[0] == b[0] { KeyLeqTotal(a[1..], b[1..]); }
  }

  lemma {:induction false} KeyLeqAntisymmetric(a: string, b: string)
    requires KeyLeq(a, b) && KeyLeq(b, a)
    ensures a == b
  {
    if a != "" && b != "" {
      KeyLeqAntisymmetric(a[1..], b[1..]);
      assert a == [a[0]] + a[1..] && b == [b[0]] + b[1..];
    }
  }

  lemma {:induction false} KeyLeqTransitive(a: string, b: string, c: string)
    requires KeyLeq(a, b) && KeyLeq(b, c)
    ensures KeyLeq(a, c)
  {
    if a != "" && b != "" && c != "" && a[0] == b[0] == c[0] {
      KeyLeqTransitive(a[1..], b[1..], c[1..]);
    }
  }

  predicate IsLeastKey(k: string, keys: set<string>) {
    k in keys && forall other | other in keys :: KeyLeq(k, other)
  }

  lemma LeastKeyExists(keys: set<string>)
    requires keys != {}
    ensures exists k :: IsLeastKey(k, keys)
    decreases keys
  {
    var k :| k in keys;
    var rest := keys - {k};
    if rest == {} {
      assert keys == {k};
      KeyLeqTotal(k, k);
      assert IsLeastKey(k, keys);
    } else {
      LeastKeyExists(rest);
      var m :| IsLeastKey(m, rest);
      KeyLeqTotal(k, m);
      KeyLeqTotal(k, k);
      if KeyLeq(k, m) {
        forall other | other in keys ensures KeyLeq(k, other) {
          if other != k { KeyLeqTransitive(k, m, other); }
        }
        assert IsLeastKey(k, keys);
      } else {
        assert IsLeastKey(m, keys);
      }
    }
  }

  lemma LeastKeyUnique(a: string, b: string, keys: set<string>)
    requires IsLeastKey(a, keys) && IsLeastKey(b, keys)
    ensures a == b
  {
    KeyLeqAntisymmetric(a, b);
  }

  function LeastKey(keys: set<string>): (k: string)
    requires keys != {}
    ensures IsLeastKey(k, keys)
  {
    LeastKeyExists(keys);
    assert forall a, b | IsLeastKey(a, keys) && IsLeastKey(b, keys) :: a == b by {
      forall a, b | IsLeastKey(a, keys) && IsLeastKey(b, keys) ensures a == b { LeastKeyUnique(a, b, keys); }
    }
    var k :| k in keys && IsLeastKey(k, keys);
    k
  }

  /** `Object.keys(obj).sort()` for an object with this key set. */
  function SortedKeys(keys: set<string>): (s: seq<string>)
    ensures forall k :: k in s <==> k in keys
    decreases keys
  {
    if keys == {} then [] else
    var k := LeastKey(keys);
    [k] + SortedKeys(keys - {k})
  }

  // ----- strings -----

  function HexDigit(n: nat): char
    requires n < 16
  {
    if n < 10 then ('0' as int + n) as char else ('a' as int + n - 10) as char
  }

  /** One character inside a quoted string. */
  function EscapeChar(c: char): string {
    if c == '\"' then ['\\', '\"']
    else if c == '\\' then ['\\', '\\']
    else if c == 8 as char then ['\\', 'b']
    else if c == 9 as char then ['\\', 't']
    else if c == 10 as char then ['\\', 'n']
    else if c == 12 as char then ['\\', 'f']
    else if c == 13 as char then ['\\', 'r']
    else if c < ' ' then ['\\', 'u', '0', '0', HexDigit(c as int / 16), HexDigit(c as int % 16)]
    else [c]
  }

  function Escape(s: string): string {
    if s == "" then "" else EscapeChar(s[0]) + Escape(s[1..])
  }

  function Quote(s: string): string {
    ['\"'] + Escape(s) + ['\"']
  }

  // ----- values -----

  function Comma(compact: bool): string { if compact then "," else ", " }
  function Colon(compact: bool): string { if compact then ":" else ": " }

  function Print(compact: bool, j: Json): string
    decreases j, 1, 0
  {
    match j
    case Null => "null"
    case Bool(b) => if b then "true" else "false"
    case Num(text) => text
    case Str(s) => Quote(s)
    case Arr(items) => "[" + PrintItems(compact, items) + "]"
    case Obj(fields) => "{" + PrintFields(compact, j, SortedKeys(fields.Keys)) + "}"
  }

  function PrintItems(compact: bool, items: seq<Json>): string
    decreases items, 0, 0
  {
    if items == [] then ""
    else if |items| == 1 then Print(compact, items[0])
    else Print(compact, items[0]) + Comma(compact) + PrintItems(compact, items[1..])
  }

  function PrintField(compact: bool, j: Json, key: string): string
    requires j.Obj? && key in j.fields
    decreases j, 0, 0
  {
    Quote(key) + Colon(compact) + Print(compact, j.fields[key])
  }

  function PrintFields(compact: bool, j: Json, keys: seq<string>): string
    requires j.Obj? && forall k | k in keys :: k in j.fields
    decreases j, 0, 1 + |keys|
  {
    if keys == [] then ""
    else if |keys| == 1 then PrintField(compact, j, keys[0])
    else PrintField(compact, j, keys[0]) + Comma(compact) + PrintFields(compact, j, keys[1..])
  }

  /** Text that may follow a value inside a larger text. */
  predicate Terminated(x: string) {
    x == "" || x[0] == ',' || x[0] == ']' || x[0] == '}'
  }

  // ----- reading back -----

  const QUOTE: string := ['\"']

  lemma DropFirst(a: string, b: string)
    ensures (a + b)[|a|..] == b && (a + b)[..|a|] == a
  {
  }

  lemma LiteralRest(s: string, x: string, y: string)
    requires s + x == s + y
    ensures x == y
  {
    DropFirst(s, x);
    DropFirst(s, y);
  }

  lemma HexDigitReads(n: nat)
    requires n < 16
    ensures HexValue(HexDigit(n)) == Some(n)
  {
  }

  lemma EscapedCharReads(c: char, x: string)
    ensures ReadChar(EscapeChar(c) + x) == Some(Parsed(c, x))
    ensures (EscapeChar(c) + x)[0] != '\"'
  {
    var e := EscapeChar(c);
    var t := e + x;
    DropFirst(e, x);
    if |e| == 6 {
      HexDigitReads(c as int / 16);
      HexDigitReads(c as int % 16);
      assert t[2..6] == e[2..6] == ['0', '0', HexDigit(c as int / 16), HexDigit(c as int % 16)];
      assert c as int / 16 * 16 + c as int % 16 == c as int;
    }
  }

  lemma {:induction false} EscapedReads(s: string, x: string)
    ensures ReadChars(Escape(s) + QUOTE + x) == Some(Parsed(s, x))
  {
    hide EscapeChar;
    var t := Escape(s) + QUOTE + x;
    if s == "" {
      assert t == QUOTE + x;
      DropFirst(QUOTE, x);
    } else {
      var more := Escape(s[1..]) + QUOTE + x;
      assert t == EscapeChar(s[0]) + more;
      EscapedCharReads(s[0], more);
      EscapedReads(s[1..], x);
      hide ReadChar;
      assert s == [s[0]] + s[1..];
    }
  }

  lemma QuotedReads(s: string, x: string)
    ensures Quote(s) + x != "" && (Quote(s) + x)[0] == '\"'
    ensures ReadString(Quote(s) + x) == Some(Parsed(s, x))
  {
    EscapedReads(s, x);
    hide Escape, ReadChars;
    assert Quote(s) + x == QUOTE + (Escape(s) + QUOTE + x);
    DropFirst(QUOTE, Escape(s) + QUOTE + x);
  }

  lemma {:induction false} NumeralReads(s: string, x: string)
    requires (forall i | 0 <= i < |s| :: IsNumeralChar(s[i])) && Terminated(x)
    ensures NumeralLength(s + x) == |s|
  {
    if s == "" {
      assert s + x == x;
    } else {
      assert (s + x)[1..] == s[1..] + x;
      NumeralReads(s[1..], x);
    }
  }

  /** The first character tells which kind of value follows; it is no space and closes nothing. */
  lemma FirstChar(compact: bool, j: Json, x: string)
    requires WellFormed(j)
    ensures var t := Print(compact, j) + x;
      && t != "" && t[0] == Print(compact, j)[0]
      && match j
         case Null => t[0] == 'n'
         case Bool(b) => t[0] == (if b then 't' else 'f')
         case Num(_) => IsNumeralChar(t[0])
         case Str(_) => t[0] == '\"'
         case Arr(_) => t[0] == '['
         case Obj(_) => t[0] == '{'
  {
  }

  lemma NoSpaceToSkip(t: string)
    requires t == "" || t[0] != ' '
    ensures SkipSpaces(t) == t
  {
  }

  /** A separator is its mark and at most one space. */
  lemma SeparatorReads(compact: bool, t: string)
    requires t == "" || t[0] != ' '
    ensures (Comma(compact) + t)[0] == ',' && SkipSpaces((Comma(compact) + t)[1..]) == t
    ensures (Colon(compact) + t)[0] == ':' && SkipSpaces((Colon(compact) + t)[1..]) == t
  {
    NoSpaceToSkip(t);
    if compact {
      assert (Comma(compact) + t)[1..] == t && (Colon(compact) + t)[1..] == t;
    } else {
      assert (Comma(compact) + t)[1..] == " " + t && (Colon(compact) + t)[1..] == " " + t;
      assert (" " + t)[1..] == t;
    }
  }

  lemma LiteralReads(word: string, j: Json, x: string)
    requires word != ""
    ensures Literal(word, j, word + x) == Some(Parsed(j, x))
  {
    DropFirst(word, x);
  }

  /** Reading a printed value gives the value, and stops where it ends. */
  lemma {:induction false} PrintedReads(compact: bool, j: Json, x: string)
    requires WellFormed(j) && Terminated(x)
    ensures Read(Print(compact, j) + x) == Some(Parsed(j, x))
    decreases j, 2, 0
  {
    FirstChar(compact, j, x);
    match j
    case Null => LiteralReads("null", j, x);
    case Bool(b) => LiteralReads(if b then "true" else "false", j, x);
    case Num(text) =>
      NumeralReads(text, x);
      DropFirst(text, x);
    case Str(s) => QuotedReads(s, x);
    case Arr(items) => ArrayReads(compact, j, x);
    case Obj(fields) => ObjectReads(compact, j, x);
  }

  lemma ArrayText(compact: bool, j: Json, x: string)
    requires j.Arr?
    ensures Print(compact, j) + x == "[" + (PrintItems(compact, j.items) + "]" + x)
    ensures PrintItems(compact, []) + "]" + x == "]" + x
  {
    hide PrintItems;
    assert PrintItems(compact, []) == "" by { NoItems(compact); }
  }

  lemma NoItems(compact: bool)
    ensures PrintItems(compact, []) == ""
  {
  }

  lemma ClosesAtOnce(open: char, close: char, x: string)
    ensures var t := [open] + ([close] + x); |t| > 1 && t[0] == open && t[1] == close && t[2..] == x
  {
  }

  lemma {:induction false} ArrayReads(compact: bool, j: Json, x: string)
    requires WellFormed(j) && Terminated(x) && j.Arr?
    ensures (Print(compact, j) + x)[0] == '[' && ReadArray(Print(compact, j) + x) == Some(Parsed(j.items, x))
    decreases j, 1, 0
  {
    hide Print, PrintItems, ReadItems;
    var body := PrintItems(compact, j.items) + "]" + x;
    ArrayText(compact, j, x);
    DropFirst("[", body);
    if j.items == [] {
      ClosesAtOnce('[', ']', x);
    } else {
      ItemsRead(compact, j.items, x);
      assert ("[" + body)[1] == body[0];
    }
  }

  lemma LastItemReads(t: string, v: Json, x: string)
    requires Read(t) == Some(Parsed(v, "]" + x))
    ensures ReadItems(t) == Some(Parsed([v], x))
  {
    hide Read;
    DropFirst("]", x);
  }

  lemma MoreItemsRead(compact: bool, t: string, v: Json, more: string, vs: seq<Json>, x: string)
    requires Read(t) == Some(Parsed(v, Comma(compact) + more)) && (more == "" || more[0] != ' ')
    requires ReadItems(more) == Some(Parsed(vs, x))
    ensures ReadItems(t) == Some(Parsed([v] + vs, x))
  {
    hide Read;
    SeparatorReads(compact, more);
    hide SkipSpaces;
  }

  lemma ItemsSplit(compact: bool, items: seq<Json>, x: string)
    requires items != []
    ensures PrintItems(compact, items) + "]" + x ==
      Print(compact, items[0])
      + if |items| == 1 then "]" + x else Comma(compact) + (PrintItems(compact, items[1..]) + "]" + x)
  {
    hide Print, Comma;
  }

  lemma {:induction false} ItemsRead(compact: bool, items: seq<Json>, x: string)
    requires items != [] && Terminated(x) && forall j | j in items :: WellFormed(j)
    ensures var t := PrintItems(compact, items) + "]" + x;
      t != "" && t[0] != ']' && t[0] != ' ' && ReadItems(t) == Some(Parsed(items, x))
    decreases items, 0, 0
  {
    hide Read, ReadItems;
    var t := PrintItems(compact, items) + "]" + x;
    var more := PrintItems(compact, items[1..]) + "]" + x;
    var rest := if |items| == 1 then "]" + x else Comma(compact) + more;
    ItemsSplit(compact, items, x);
    FirstChar(compact, items[0], rest);
    PrintedReads(compact, items[0], rest);
    hide Print, PrintItems;
    if |items| == 1 {
      LastItemReads(t, items[0], x);
      assert items == [items[0]];
    } else {
      ItemsRead(compact, items[1..], x);
      MoreItemsRead(compact, t, items[0], more, items[1..], x);
      assert items == [items[0]] + items[1..];
    }
  }

  /** The members of an object under the given keys. */
  function MembersFor(j: Json, keys: seq<string>): seq<Pair>
    requires j.Obj? && forall k | k in keys :: k in j.fields
  {
    seq(|keys|, i requires 0 <= i < |keys| => Pair(keys[i], j.fields[keys[i]]))
  }

  lemma ObjectText(compact: bool, j: Json, x: string)
    requires j.Obj?
    ensures Print(compact, j) + x == "{" + (PrintFields(compact, j, SortedKeys(j.fields.Keys)) + "}" + x)
    ensures PrintFields(compact, j, []) + "}" + x == "}" + x
  {
    hide PrintFields, SortedKeys;
    assert PrintFields(compact, j, []) == "" by { NoFields(compact, j); }
  }

  lemma NoFields(compact: bool, j: Json)
    requires j.Obj?
    ensures PrintFields(compact, j, []) == ""
  {
  }

  lemma {:induction false} ObjectReads(compact: bool, j: Json, x: string)
    requires WellFormed(j) && Terminated(x) && j.Obj?
    ensures (Print(compact, j) + x)[0] == '{'
    ensures ReadObject(Print(compact, j) + x) == Some(Parsed(MembersFor(j, SortedKeys(j.fields.Keys)), x))
    ensures FieldsOf(MembersFor(j, SortedKeys(j.fields.Keys))) == j.fields
    decreases j, 1, 0
  {
    hide Print, PrintFields, ReadMembers, SortedKeys, FieldsOf;
    var keys := SortedKeys(j.fields.Keys);
    var body := PrintFields(compact, j, keys) + "}" + x;
    ObjectText(compact, j, x);
    FieldsBack(j, keys);
    DropFirst("{", body);
    if keys == [] {
      ClosesAtOnce('{', '}', x);
      assert MembersFor(j, keys) == [];
    } else {
      MembersRead(compact, j, keys, x);
      assert ("{" + body)[1] == body[0];
    }
  }

  lemma {:induction false} FieldsBack(j: Json, keys: seq<string>)
    requires j.Obj? && forall k | k in keys :: k in j.fields
    ensures FieldsOf(MembersFor(j, keys)) == map k | k in keys :: j.fields[k]
    ensures (forall k :: k in keys <==> k in j.fields) ==> FieldsOf(MembersFor(j, keys)) == j.fields
  {
    if keys != [] {
      FieldsBack(j, keys[1..]);
      assert MembersFor(j, keys)[1..] == MembersFor(j, keys[1..]);
      assert keys == [keys[0]] + keys[1..];
    }
  }

  lemma MemberParts(compact: bool, t: string, key: string, text: string, v: Json, x: string)
    requires ReadString(t) == Some(Parsed(key, Colon(compact) + text)) && (text == "" || text[0] != ' ')
    requires Read(text) == Some(Parsed(v, x))
    ensures ReadMember(t) == Some(Parsed(Pair(key, v), x))
  {
    hide Read, ReadString, Colon;
    SeparatorReads(compact, text);
    hide SkipSpaces;
  }

  lemma {:induction false} MemberReads(compact: bool, j: Json, key: string, x: string)
    requires j.Obj? && WellFormed(j) && key in j.fields && Terminated(x)
    ensures var t := PrintField(compact, j, key) + x;
      t != "" && t[0] == '\"' && ReadMember(t) == Some(Parsed(Pair(key, j.fields[key]), x))
    decreases j, 0, 0
  {
    hide Print, Read, Quote, ReadString, ReadMember, Colon;
    var text := Print(compact, j.fields[key]) + x;
    var rest := Colon(compact) + text;
    assert PrintField(compact, j, key) + x == Quote(key) + rest;
    QuotedReads(key, rest);
    FirstChar(compact, j.fields[key], x);
    PrintedReads(compact, j.fields[key], x);
    MemberParts(compact, PrintField(compact, j, key) + x, key, text, j.fields[key], x);
  }

  lemma LastMemberReads(t: string, m: Pair, x: string)
    requires ReadMember(t) == Some(Parsed(m, "}" + x))
    ensures ReadMembers(t) == Some(Parsed([m], x))
  {
    hide ReadMember;
    DropFirst("}", x);
  }

  lemma MoreMembersRead(compact: bool, t: string, m: Pair, more: string, ms: seq<Pair>, x: string)
    requires ReadMember(t) == Some(Parsed(m, Comma(compact) + more)) && (more == "" || more[0] != ' ')
    requires ReadMembers(more) == Some(Parsed(ms, x))
    ensures ReadMembers(t) == Some(Parsed([m] + ms, x))
  {
    hide ReadMember;
    SeparatorReads(compact, more);
    hide SkipSpaces;
  }

  lemma MembersSplit(compact: bool, j: Json, keys: seq<string>, x: string)
    requires j.Obj? && keys != [] && forall k | k in keys :: k in j.fields
    ensures PrintFields(compact, j, keys) + "}" + x ==
      PrintField(compact, j, keys[0])
      + if |keys| == 1 then "}" + x else Comma(compact) + (PrintFields(compact, j, keys[1..]) + "}" + x)
  {
    hide PrintField, Comma;
  }

  lemma {:induction false} MembersRead(compact: bool, j: Json, keys: seq<string>, x: string)
    requires j.Obj? && WellFormed(j) && keys != [] && Terminated(x) && forall k | k in keys :: k in j.fields
    ensures var t := PrintFields(compact, j, keys) + "}" + x;
      t != "" && t[0] == '\"' && ReadMembers(t) == Some(Parsed(MembersFor(j, keys), x))
    decreases j, 0, 1 + |keys|
  {
    hide ReadMember, ReadMembers, PrintField, PrintFields, Quote;
    MembersSplit(compact, j, keys, x);
    var t := PrintFields(compact, j, keys) + "}" + x;
    var more := PrintFields(compact, j, keys[1..]) + "}" + x;
    var rest := if |keys| == 1 then "}" + x else Comma(compact) + more;
    MemberReads(compact, j, keys[0], rest);
    assert t[0] == (PrintField(compact, j, keys[0]) + rest)[0];
    var m := Pair(keys[0], j.fields[keys[0]]);
    if |keys| == 1 {
      LastMemberReads(t, m, x);
      assert MembersFor(j, keys) == [m];
    } else {
      MembersRead(compact, j, keys[1..], x);
      MoreMembersRead(compact, t, m, more, MembersFor(j, keys[1..]), x);
      assert MembersFor(j, keys) == [m] + MembersFor(j, keys[1..]);
    }
  }

  // ----- the theorems -----

  /** Reading a whole text. */
  lemma TextReads(compact: bool, j: Json)
    requires WellFormed(j)
    ensures Read(Print(compact, j)) == Some(Parsed(j, ""))
  {
    assert Print(compact, j) + "" == Print(compact, j);
    PrintedReads(compact, j, "");
  }

  /** No printed value is a proper beginning of another in any context. */
  lemma PrintUnique(compact: bool, a: Json, b: Json, x: string, y: string)
    requires WellFormed(a) && WellFormed(b) && Terminated(x) && Terminated(y)
    requires Print(compact, a) + x == Print(compact, b) + y
    ensures a == b && x == y
  {
    hide Print, Read;
    PrintedReads(compact, a, x);
    PrintedReads(compact, b, y);
  }

  /** Canonical text determines the value: `canonicalJson` and `stableStringify`
      are injective on JSON values up to key order. */
  lemma PrintInjective(compact: bool, a: Json, b: Json)
    requires WellFormed(a) && WellFormed(b)
    ensures Print(compact, a) == Print(compact, b) <==> a == b
  {
    hide Print, Read;
    TextReads(compact, a);
    TextReads(compact, b);
  }

  /** `a` comes strictly before `b`: it is a proper beginning of it, or smaller where they first differ. */
  predicate Before(a: string, b: string) {
    exists n | 0 <= n <= |a| && n <= |b| ::
      a[..n] == b[..n] && (if n == |a| then n < |b| else n < |b| && a[n] < b[n])
  }

  lemma {:induction false} KeyLeqIsBefore(a: string, b: string)
    requires KeyLeq(a, b) && a != b
    ensures Before(a, b)
  {
    if a == "" {
      assert a[..0] == b[..0];
    } else if a[0] == b[0] {
      assert a == [a[0]] + a[1..] && b == [b[0]] + b[1..];
      KeyLeqIsBefore(a[1..], b[1..]);
      var n :| 0 <= n <= |a[1..]| && n <= |b[1..]| && a[1..][..n] == b[1..][..n]
        && (if n == |a[1..]| then n < |b[1..]| else n < |b[1..]| && a[1..][n] < b[1..][n]);
      assert a[..n + 1] == [a[0]] + a[1..][..n] && b[..n + 1] == [b[0]] + b[1..][..n];
    } else {
      assert a[..0] == b[..0];
    }
  }

  /** Sorted keys ascend. */
  lemma {:induction false} SortedKeysAscend(keys: set<string>, i: nat, j: nat)
    requires i < j < |SortedKeys(keys)|
    ensures Before(SortedKeys(keys)[i], SortedKeys(keys)[j])
    decreases keys
  {
    hide KeyLeq, Before;
    var k := LeastKey(keys);
    var rest := SortedKeys(keys - {k});
    if i == 0 {
      assert rest[j - 1] in keys - {k};
      KeyLeqIsBefore(k, rest[j - 1]);
    } else {
      SortedKeysAscend(keys - {k}, i - 1, j - 1);
    }
  }

  /** The members of a printed object stand in ascending order of their keys, and are
      those of the value. */
  lemma MembersAscend(compact: bool, j: Json)
    requires j.Obj? && WellFormed(j)
    ensures Print(compact, j) != "" && Print(compact, j)[0] == '{' && ReadObject(Print(compact, j)).Some?
    ensures var members := ReadObject(Print(compact, j)).value.value;
      && (forall i, k | 0 <= i < k < |members| :: Before(members[i].key, members[k].key))
      && (forall m | m in members :: Get(j.fields, m.key) == Some(m.value))
      && FieldsOf(members) == j.fields
  {
    assert Print(compact, j) + "" == Print(compact, j);
    ObjectReads(compact, j, "");
    var keys := SortedKeys(j.fields.Keys);
    var members := MembersFor(j, keys);
    forall i, k | 0 <= i < k < |members| ensures Before(members[i].key, members[k].key) {
      SortedKeysAscend(j.fields.Keys, i, k);
    }
  }

  /** The two forms: compact text has no space between its parts, spaced text one after
      every comma and colon. */
  lemma ArrayForms(a: Json, b: Json)
    ensures Print(true, Arr([a, b])) == "[" + Print(true, a) + "," + Print(true, b) + "]"
    ensures Print(false, Arr([a, b])) == "[" + Print(false, a) + ", " + Print(false, b) + "]"
  {
    hide PrintItems;
    PairOfItems(true, a, b);
    PairOfItems(false, a, b);
    assert Print(true, Arr([a, b])) == "[" + PrintItems(true, [a, b]) + "]";
    assert Print(false, Arr([a, b])) == "[" + PrintItems(false, [a, b]) + "]";
    hide Print;
  }

  lemma PairOfItems(compact: bool, a: Json, b: Json)
    ensures PrintItems(compact, [a, b]) == Print(compact, a) + Comma(compact) + Print(compact, b)
  {
    hide Print, Comma;
    assert [a, b][1..] == [b];
  }

  lemma ObjectForms(key: string, value: Json)
    ensures Print(true, Obj(map[key := value])) == "{" + (Quote(key) + ":" + Print(true, value)) + "}"
    ensures Print(false, Obj(map[key := value])) == "{" + (Quote(key) + ": " + Print(false, value)) + "}"
  {
    hide Print, Quote;
    OneField(true, key, value);
    OneField(false, key, value);
  }

  lemma OneField(compact: bool, key: string, value: Json)
    ensures var j := Obj(map[key := value]);
      Print(compact, j) == "{" + (Quote(key) + Colon(compact) + Print(compact, value)) + "}"
  {
    var j := Obj(map[key := value]);
    OneKey(j.fields.Keys, key);
    hide SortedKeys, Quote, Colon;
    assert PrintFields(compact, j, [key]) == PrintField(compact, j, key);
  }

  lemma OneKey(keys: set<string>, key: string)
    requires keys == {key}
    ensures SortedKeys(keys) == [key]
  {
    assert LeastKey(keys) == key && keys - {key} == {};
  }
}
