/** How long JSON documents are as text: as `encoded` writes them (sorted keys, indented by two,
    UTF-8, a final newline), and written without any spaces. */
module JsonLength {
  import opened Json
  import opened Sums
  import Schema

  /** Characters with a short escape, other control characters, and everything else as it is. */
  function CharLength(c: char): nat {
    if c == '"' || c == '\\' || c == '\n' || c == '\r' || c == '\t' || c as int == 8 || c as int == 12 then 2
    else if c as int < 0x20 then 6
    else Schema.Utf8Size([c])
  }

  function CharsLength(s: string): nat {
    if s == "" then 0 else CharLength(s[0]) + CharsLength(s[1..])
  }

  function StringLength(s: string): nat {
    CharsLength(s) + 2
  }

  /** The bytes of a member's name in its quotes: `message_lifetimes` is 17 letters long, and so
      on; no known name needs an escape. */
  function KeyLength(f: Field): nat {
    match f
    case Name => 6
    case MessageLifetimes => 19
    case DefaultMessageLifetime => 26
    case CreationMode => 15
    case AllowedCreators => 18
    case ManagedProvider => 18
    case Provider => 10
    case AllowedOwners => 16
    case FolderLink => 13
    case WriteAuth => 12
    case S3Endpoint => 13
    case S3Region => 11
    case S3Bucket => 11
    case S3AccessKey => 15
    case S3SecretKey => 15
    case Endpoint => 10
    case Region => 8
    case Bucket => 8
    case AccessKey => 12
    case SecretKey => 12
    case AllowedMessageRetentions => 28
    case Revision => 10
    case Storage => 9
    case Url => 5
    case Managed => 9
    case RetentionHours => 17
    case ManagedStorage => 17
    case Record => 8
    case Link => 6
    case StorageAvailable => 19
    case IdField => 4
    case PhaseField => 7
    case PreviousField => 10
    case PathField => 6
    case ContentField => 9
    case UidField => 5
    case GidField => 5
    case ModeField => 6
    case Other(key) => StringLength(key)
  }

  function Digits(n: nat): nat {
    if n < 10 then 1 else Digits(n / 10) + 1
  }

  function IntLength(n: int): nat {
    if n < 0 then Digits(-n) + 1 else Digits(n)
  }

  /** Brackets, line breaks, indentation and commas around `n` entries at that depth. */
  function Layout(n: nat, depth: nat): nat {
    if n == 0 then 2 else 2 + n * (1 + 2 * (depth + 1)) + (n - 1) + 1 + 2 * depth
  }

  ghost function TextLength(v: Value, depth: nat): nat
    decreases v, 1
  {
    match v
    case Null => 4
    case Bool(b) => if b then 4 else 5
    case Int(n) => IntLength(n)
    case Overflow(negative) => if negative then 9 else 8
    case Str(s) => StringLength(s)
    case List(items) => Layout(|items|, depth) + ItemsLength(items, depth + 1)
    case Object(fields) => Layout(|fields|, depth) + FieldsLength(v, depth + 1)
  }

  ghost function FieldsLength(v: Value, depth: nat): nat
    requires v.Object?
    decreases v, 0
  {
    Sum(map k | k in v.fields :: KeyLength(k) + 2 + TextLength(v.fields[k], depth))
  }

  ghost function ItemsLength(items: seq<Value>, depth: nat): nat
    decreases items, 1
  {
    if items == [] then 0 else TextLength(items[0], depth) + ItemsLength(items[1..], depth)
  }

  ghost function EncodedLength(v: Value): nat {
    TextLength(v, 0) + 1
  }

  ghost function CompactLength(v: Value): nat
    decreases v, 1
  {
    match v
    case Null => 4
    case Bool(b) => if b then 4 else 5
    case Int(n) => IntLength(n)
    case Overflow(negative) => if negative then 6 else 5
    case Str(s) => StringLength(s)
    case List(items) => 2 + (if items == [] then 0 else |items| - 1) + CompactItems(items)
    case Object(fields) => 2 + (if |fields| == 0 then 0 else |fields| - 1) + CompactFields(v)
  }

  ghost function CompactFields(v: Value): nat
    requires v.Object?
    decreases v, 0
  {
    Sum(map k | k in v.fields :: KeyLength(k) + 1 + CompactLength(v.fields[k]))
  }

  ghost function CompactItems(items: seq<Value>): nat
    decreases items, 1
  {
    if items == [] then 0 else CompactLength(items[0]) + CompactItems(items[1..])
  }

  // ----- A document that more than doubles when it is rewritten -----

  function Zeros(n: nat): seq<Value> {
    if n == 0 then [] else [Int(0)] + Zeros(n - 1)
  }

  function Filler(key: Field, n: nat): map<Field, Value> {
    map[key := List(Zeros(n))]
  }

  lemma {:induction false} ZerosLength(n: nat, depth: nat)
    ensures |Zeros(n)| == n && ItemsLength(Zeros(n), depth) == n && CompactItems(Zeros(n)) == n
  {
    if n > 0 {
      ZerosLength(n - 1, depth);
      assert Zeros(n)[1..] == Zeros(n - 1) && Zeros(n)[0] == Int(0);
    }
  }

  lemma SingleSum<K>(m: map<K, nat>, k: K)
    requires m.Keys == {k}
    ensures Sum(m) == m[k]
  {
    SumRemove(m, k);
    assert m - {k} == map[];
  }

  lemma OneField(key: Field, v: Value, depth: nat)
    ensures FieldsLength(Object(map[key := v]), depth) == KeyLength(key) + 2 + TextLength(v, depth)
  {
    var o := Object(map[key := v]);
    SingleSum(map k | k in o.fields :: KeyLength(k) + 2 + TextLength(o.fields[k], depth), key);
  }

  lemma OneFieldCompact(key: Field, v: Value)
    ensures CompactFields(Object(map[key := v])) == KeyLength(key) + 1 + CompactLength(v)
  {
    var o := Object(map[key := v]);
    SingleSum(map k | k in o.fields :: KeyLength(k) + 1 + CompactLength(o.fields[k]), key);
  }

  lemma OneKey<K, V>(k: K, v: V)
    ensures |map[k := v]| == 1
  {
    assert map[k := v].Keys == {k};
  }

  lemma ZerosText(n: nat)
    requires n > 0
    ensures TextLength(List(Zeros(n)), 1) == 7 * n + 4 && CompactLength(List(Zeros(n))) == 2 * n + 1
  {
    ZerosLength(n, 2);
  }

  /** A list of `n` zeros takes seven bytes a number as `encoded` writes it, and two compactly. */
  lemma FillerLength(key: Field, n: nat)
    requires n > 0
    ensures EncodedLength(Object(Filler(key, n))) == 7 * n + 13 + KeyLength(key)
  {
    ZerosText(n);
    OneField(key, List(Zeros(n)), 1);
    OneKey(key, List(Zeros(n)));
  }

  lemma FillerCompact(key: Field, n: nat)
    requires n > 0
    ensures CompactLength(Object(Filler(key, n))) == 2 * n + 4 + KeyLength(key)
  {
    ZerosText(n);
    OneFieldCompact(key, List(Zeros(n)));
    OneKey(key, List(Zeros(n)));
  }
}
