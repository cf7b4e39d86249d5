/** data_package.cpp, rtde_parser.cpp: RTDE data packages, their bytes on the wire, and how they are read back. */
module DataPackages {
  import opened Wrappers

  type uint8 = n: int | 0 <= n < 256

  const DATA_PACKAGE: uint8 := 85
  const HEADER_SIZE := 3

  /** The alternatives of the field variant that the type list uses. */
  datatype Kind =
    | Boolean | UInt8 | UInt32 | UInt64 | Int32 | Double
    | Vector3d | Vector6d | Vector6Int32 | Vector6UInt32

  /** Bytes per item on the wire. */
  function Width(kind: Kind): nat {
    match kind
    case Boolean | UInt8 => 1
    case UInt32 | Int32 | Vector6Int32 | Vector6UInt32 => 4
    case UInt64 | Double | Vector3d | Vector6d => 8
  }

  function Count(kind: Kind): nat {
    match kind
    case Vector3d => 3
    case Vector6d | Vector6Int32 | Vector6UInt32 => 6
    case _ => 1
  }

  predicate Signed(kind: Kind) {
    kind == Int32 || kind == Vector6Int32
  }

  function Pow256(n: nat): nat {
    if n == 0 then 1 else 256 * Pow256(n - 1)
  }

  /** A field's value: one item, or one per vector component. Doubles are their 64-bit words, booleans 0 or 1. */
  datatype Value = Value(kind: Kind, items: seq<int>)

  predicate InRange(kind: Kind, item: int) {
    if kind == Boolean then 0 <= item <= 1
    else if Signed(kind) then -0x8000_0000 <= item < 0x8000_0000
    else 0 <= item < Pow256(Width(kind))
  }

  predicate WellFormed(v: Value) {
    |v.items| == Count(v.kind) && forall k :: 0 <= k < |v.items| ==> InRange(v.kind, v.items[k])
  }

  function Zeros(n: nat): (s: seq<int>)
    ensures |s| == n
  {
    seq(n, _ => 0)
  }

  /** A value-initialised variant alternative. */
  function Zero(kind: Kind): Value {
    Value(kind, Zeros(Count(kind)))
  }

  datatype Field = Field(name: string, value: Value)

  predicate FieldsWellFormed(data: seq<Field>) {
    forall k :: 0 <= k < |data| ==> WellFormed(data[k].value)
  }

  // Setting and getting fields: the first field with the name, and only with a value of its type.

  /** std::find_if by name, from index i on: the first field with it, or the end. */
  function FieldIndex(data: seq<Field>, name: string, i: nat): (k: nat)
    requires i <= |data|
    ensures i <= k <= |data| && (k < |data| ==> data[k].name == name)
    ensures forall j :: i <= j < k ==> data[j].name != name
    decreases |data| - i
  {
    if i == |data| || data[i].name == name then i else FieldIndex(data, name, i + 1)
  }

  function Lookup(data: seq<Field>, name: string): Option<Value> {
    var k := FieldIndex(data, name, 0);
    if k == |data| then None else Some(data[k].value)
  }

  function SetField(data: seq<Field>, name: string, value: Value): (r: Option<seq<Field>>)
    ensures r.Some? ==> |r.value| == |data|
  {
    var k := FieldIndex(data, name, 0);
    if k == |data| || data[k].value.kind != value.kind then None else Some(data[k := data[k].(value := value)])
  }

  /** What was set is what is read, and nothing else changes. */
  lemma LookupAfterSet(data: seq<Field>, name: string, value: Value, other: string)
    ensures SetField(data, name, value).Some? <==>
            Lookup(data, name).Some? && Lookup(data, name).value.kind == value.kind
    ensures SetField(data, name, value).Some? ==>
            Lookup(SetField(data, name, value).value, other) ==
            if other == name then Some(value) else Lookup(data, other)
  {
    if SetField(data, name, value).Some? {
      SetKeepsIndex(data, name, value, other);
    }
  }

  lemma SetKeepsIndex(data: seq<Field>, name: string, value: Value, other: string)
    requires SetField(data, name, value).Some?
    ensures FieldIndex(SetField(data, name, value).value, other, 0) == FieldIndex(data, other, 0)
  {
    var (after, k) := (SetField(data, name, value).value, FieldIndex(data, other, 0));
    var m := FieldIndex(after, other, 0);
    hide FieldIndex;
    assert forall j :: 0 <= j < |data| ==> after[j].name == data[j].name;
  }

  // Bytes

  function BigEndian(word: nat, width: nat): (bytes: seq<uint8>)
    ensures |bytes| == width
  {
    if width == 0 then [] else BigEndian(word / 256, width - 1) + [word % 256]
  }

  function FromBigEndian(bytes: seq<uint8>): nat {
    if bytes == [] then 0 else 256 * FromBigEndian(bytes[..|bytes| - 1]) + bytes[|bytes| - 1]
  }

  lemma {:induction false} WordRoundTrip(word: nat, width: nat)
    requires word < Pow256(width)
    ensures FromBigEndian(BigEndian(word, width)) == word
  {
    if width > 0 {
      WordRoundTrip(word / 256, width - 1);
      assert BigEndian(word, width)[..width - 1] == BigEndian(word / 256, width - 1);
    }
  }

  /** The first byte is the most significant one. */
  lemma {:induction false} HighByteFirst(word: nat, width: nat)
    requires width > 0 && word < Pow256(width)
    ensures Pow256(width - 1) > 0 && BigEndian(word, width)[0] == word / Pow256(width - 1)
    ensures BigEndian(word, width)[1..] == BigEndian(word % Pow256(width - 1), width - 1)
  {
    if width > 1 {
      HighByteFirst(word / 256, width - 1);
      QuotientsOfQuotient(word, Pow256(width - 2));
      assert BigEndian(word, width)[..width - 1] == BigEndian(word / 256, width - 1);
    } else {
      assert BigEndian(word, 1) == [] + [word % 256];
    }
  }

  lemma QuotientsOfQuotient(word: nat, p: nat)
    requires p > 0
    ensures word / 256 / p == word / (256 * p)
    ensures word / 256 % p == word % (256 * p) / 256 && word % (256 * p) % 256 == word % 256
  {
    var (low, high) := (word % 256, word / 256);
    var (q, r) := (high / p, high % p);
    var rest := 256 * r + low;
    assert word == 256 * (p * q + r) + low == 256 * p * q + rest;
    assert rest < 256 * p;
    DivMod(256 * p, q, rest);
    DivMod(256, r, low);
  }

  lemma DivMod(d: nat, q: nat, r: nat)
    requires r < d
    ensures (d * q + r) / d == q && (d * q + r) % d == r
  {
    var n := d * q + r;
    OneQuotient(d, q, r, n / d, n % d);
  }

  lemma OneQuotient(d: nat, q: nat, r: nat, p: nat, s: nat)
    requires r < d && s < d && d * q + r == d * p + s
    ensures q == p && r == s
  {
    AtLeast(d, if q < p then p - q else q - p);
    assert d * (p - q) == r - s;
  }

  lemma AtLeast(d: nat, k: nat)
    ensures k > 0 ==> d * k >= d
  {
  }

  lemma {:induction false} WordInRange(bytes: seq<uint8>)
    ensures FromBigEndian(bytes) < Pow256(|bytes|)
  {
    if bytes != [] {
      WordInRange(bytes[..|bytes| - 1]);
    }
  }

  /** The unsigned word that carries an item: two's complement for the signed kinds. */
  function ToWord(kind: Kind, item: int): nat {
    if item >= 0 then item else if item >= -0x8000_0000 then item + 0x1_0000_0000 else 0
  }

  function FromWord(kind: Kind, word: nat): int {
    if kind == Boolean then if word != 0 then 1 else 0
    else if Signed(kind) && word >= 0x8000_0000 then word - 0x1_0000_0000
    else word
  }

  /** A signed item and its word differ by a multiple of two to the 32nd: two's complement. */
  lemma TwosComplement(kind: Kind, item: int)
    requires Signed(kind) && InRange(kind, item)
    ensures 0 <= ToWord(kind, item) < 0x1_0000_0000 && (ToWord(kind, item) - item) % 0x1_0000_0000 == 0
    ensures item < 0 <==> ToWord(kind, item) >= 0x8000_0000
  {
  }

  lemma PowersOf256()
    ensures Pow256(1) == 256 && Pow256(4) == 0x1_0000_0000
  {
    assert Pow256(1) == 256 * Pow256(0);
    assert Pow256(2) == 256 * Pow256(1);
    assert Pow256(3) == 256 * Pow256(2);
    assert Pow256(4) == 256 * Pow256(3);
  }

  lemma WordFits(kind: Kind, item: int)
    requires InRange(kind, item)
    ensures ToWord(kind, item) < Pow256(Width(kind)) && FromWord(kind, ToWord(kind, item)) == item
  {
    PowersOf256();
    hide Pow256;
  }

  lemma ItemRoundTrip(kind: Kind, item: int)
    requires InRange(kind, item)
    ensures FromWord(kind, FromBigEndian(BigEndian(ToWord(kind, item), Width(kind)))) == item
  {
    hide Pow256, InRange, ToWord, FromWord, BigEndian, FromBigEndian, Width;
    WordFits(kind, item);
    WordRoundTrip(ToWord(kind, item), Width(kind));
  }

  function EncodeItems(kind: Kind, items: seq<int>): (bytes: seq<uint8>)
  {
    if items == [] then []
    else BigEndian(ToWord(kind, items[0]), Width(kind)) + EncodeItems(kind, items[1..])
  }

  function Encode(data: seq<Field>): seq<uint8> {
    if data == [] then []
    else EncodeItems(data[0].value.kind, data[0].value.items) + Encode(data[1..])
  }

  function ItemBytes(kind: Kind, n: nat): nat {
    if n == 0 then 0 else Width(kind) + ItemBytes(kind, n - 1)
  }

  /** What sizeof gives for the alternatives. */
  lemma SizesOfKinds(kind: Kind)
    ensures ItemBytes(kind, Count(kind)) ==
            match kind
            case Boolean | UInt8 => 1
            case UInt32 | Int32 => 4
            case UInt64 | Double => 8
            case Vector3d | Vector6Int32 | Vector6UInt32 => 24
            case Vector6d => 48
  {
    var w := Width(kind);
    assert ItemBytes(kind, 1) == w + ItemBytes(kind, 0);
    assert ItemBytes(kind, 2) == w + ItemBytes(kind, 1);
    assert ItemBytes(kind, 3) == w + ItemBytes(kind, 2);
    assert ItemBytes(kind, 4) == w + ItemBytes(kind, 3);
    assert ItemBytes(kind, 5) == w + ItemBytes(kind, 4);
    assert ItemBytes(kind, 6) == w + ItemBytes(kind, 5);
  }

  /** The bytes that the fields take: sizeof of every alternative. */
  function FieldBytes(data: seq<Field>): nat {
    if data == [] then 0
    else ItemBytes(data[0].value.kind, |data[0].value.items|) + FieldBytes(data[1..])
  }

  lemma {:induction false} EncodedItemsLength(kind: Kind, items: seq<int>)
    ensures |EncodeItems(kind, items)| == ItemBytes(kind, |items|)
  {
    if items != [] {
      EncodedItemsLength(kind, items[1..]);
    }
  }

  lemma {:induction false} EncodedLength(data: seq<Field>)
    ensures |Encode(data)| == FieldBytes(data)
  {
    if data != [] {
      EncodedItemsLength(data[0].value.kind, data[0].value.items);
      EncodedLength(data[1..]);
    }
  }

  /** The size field: header and payload, in the 16 bits that the source computes it in. */
  function SizeField(data: seq<Field>): nat {
    (HEADER_SIZE + 1 + FieldBytes(data)) % 0x1_0000
  }

  /** A whole data package: header, recipe id, fields. */
  function Wire(id: uint8, data: seq<Field>): seq<uint8> {
    BigEndian(SizeField(data), 2) + [DATA_PACKAGE] + [id] + Encode(data)
  }

  // Writing into a buffer

  /** The buffer with `bytes` written at index `at`. */
  function Splice(old_: seq<uint8>, at: nat, bytes: seq<uint8>): (s: seq<uint8>)
    requires at + |bytes| <= |old_|
    ensures |s| == |old_|
  {
    old_[..at] + bytes + old_[at + |bytes|..]
  }

  lemma SpliceTwice(s: seq<uint8>, at: nat, x: seq<uint8>, y: seq<uint8>)
    requires at + |x| + |y| <= |s|
    ensures Splice(Splice(s, at, x), at + |x|, y) == Splice(s, at, x + y)
  {
  }

  method Memcpy(buffer: array<uint8>, at: nat, bytes: seq<uint8>)
    requires at + |bytes| <= buffer.Length
    modifies buffer
    ensures buffer[..] == Splice(old(buffer[..]), at, bytes)
  {
    for i := 0 to |bytes|
      invariant forall k :: 0 <= k < at || at + i <= k < buffer.Length ==> buffer[k] == old(buffer[k])
      invariant forall k :: 0 <= k < i ==> buffer[at + k] == bytes[k]
    {
      buffer[at + i] := bytes[i];
    }
    assert forall k :: at <= k < at + |bytes| ==> buffer[k] == buffer[at + (k - at)];
  }

  /** PackageSerializer::serialize for one field: the items one behind the other. */
  method Serialize(buffer: array<uint8>, at: nat, value: Value) returns (size: nat)
    requires at + ItemBytes(value.kind, |value.items|) <= buffer.Length
    modifies buffer
    ensures size == ItemBytes(value.kind, |value.items|) == |EncodeItems(value.kind, value.items)|
    ensures buffer[..] == Splice(old(buffer[..]), at, EncodeItems(value.kind, value.items))
  {
    var (kind, items) := (value.kind, value.items);
    size := 0;
    for i := 0 to |items|
      invariant size == |EncodeItems(kind, items[..i])| && size + ItemBytes(kind, |items| - i) == ItemBytes(kind, |items|)
      invariant buffer[..] == Splice(old(buffer[..]), at, EncodeItems(kind, items[..i]))
    {
      ghost var before := buffer[..];
      var word := BigEndian(ToWord(kind, items[i]), Width(kind));
      Memcpy(buffer, at + size, word);
      SpliceTwice(old(buffer[..]), at, EncodeItems(kind, items[..i]), word);
      EncodeItemsSnoc(kind, items, i);
      size := size + Width(kind);
    }
    assert items[..|items|] == items;
  }

  lemma {:induction false} EncodeItemsSnoc(kind: Kind, items: seq<int>, i: nat)
    requires i < |items|
    ensures EncodeItems(kind, items[..i + 1]) == EncodeItems(kind, items[..i]) + BigEndian(ToWord(kind, items[i]), Width(kind))
    decreases i
  {
    if i > 0 {
      EncodeItemsSnoc(kind, items[1..], i - 1);
      assert items[1..][..i - 1] == items[..i][1..] && items[1..][..i] == items[..i + 1][1..];
    } else {
      assert items[..1][1..] == [] && items[..0] == [];
    }
  }

  lemma {:induction false} EncodeSnoc(data: seq<Field>, i: nat)
    requires i < |data|
    ensures Encode(data[..i + 1]) == Encode(data[..i]) + EncodeItems(data[i].value.kind, data[i].value.items)
    decreases i
  {
    if i > 0 {
      EncodeSnoc(data[1..], i - 1);
      assert data[1..][..i - 1] == data[..i][1..] && data[1..][..i] == data[..i + 1][1..];
    } else {
      assert data[..1][1..] == [] && data[..0] == [];
    }
  }

  lemma {:induction false} FieldBytesSplit(data: seq<Field>, i: nat)
    requires i <= |data|
    ensures FieldBytes(data) == FieldBytes(data[..i]) + FieldBytes(data[i..])
    decreases i
  {
    if i == 0 {
      assert data[..0] == [] && data[0..] == data;
    } else {
      FieldBytesSplit(data[1..], i - 1);
      assert data[..i][1..] == data[1..][..i - 1] && data[i..] == data[1..][i - 1..];
    }
  }

  /** What the type list makes of a recipe: every field zero, or the first name that it does not know. */
  function EmptyFields(recipe: seq<string>, types: map<string, Kind>): Result<seq<Field>, string> {
    if recipe == [] then Success([])
    else if recipe[0] !in types then Failure(recipe[0])
    else
      match EmptyFields(recipe[1..], types)
      case Failure(name) => Failure(name)
      case Success(rest) => Success([Field(recipe[0], Zero(types[recipe[0]]))] + rest)
  }

  function Names(data: seq<Field>): (names: seq<string>)
    ensures |names| == |data|
  {
    seq(|data|, k requires 0 <= k < |data| => data[k].name)
  }

  // Reading fields back

  /** How far reading got: what was overwritten, where the reader stands, and whether the bytes sufficed. */
  datatype Progress<+T> = Progress(done: T, pos: nat, ok: bool)

  function ReadItems(kind: Kind, items: seq<int>, i: nat, bytes: seq<uint8>, pos: nat): (p: Progress<seq<int>>)
    requires i <= |items| && pos <= |bytes|
    ensures |p.done| == |items| && pos <= p.pos <= |bytes|
    decreases |items| - i
  {
    if i == |items| then Progress(items, pos, true)
    else if pos + Width(kind) > |bytes| then Progress(items, pos, false)
    else
      var item := FromWord(kind, FromBigEndian(bytes[pos..pos + Width(kind)]));
      ReadItems(kind, items[i := item], i + 1, bytes, pos + Width(kind))
  }

  function ReadFields(data: seq<Field>, i: nat, bytes: seq<uint8>, pos: nat): (p: Progress<seq<Field>>)
    requires i <= |data| && pos <= |bytes|
    ensures |p.done| == |data| && pos <= p.pos <= |bytes|
    decreases |data| - i
  {
    if i == |data| then Progress(data, pos, true)
    else
      var p := ReadItems(data[i].value.kind, data[i].value.items, 0, bytes, pos);
      var read := data[i := data[i].(value := Value(data[i].value.kind, p.done))];
      if p.ok then ReadFields(read, i + 1, bytes, p.pos) else Progress(read, p.pos, false)
  }

  /** comm::BinParser over a received buffer. */
  class BinParser {
    const bytes: seq<uint8>
    var pos: nat

    ghost predicate Valid()
      reads this
    {
      pos <= |bytes|
    }

    constructor (bytes: seq<uint8>)
      ensures Valid() && this.bytes == bytes && pos == 0
    {
      this.bytes := bytes;
      pos := 0;
    }

    /** None where the source throws: the buffer is too short, and the position stays. */
    method ParseWord(width: nat) returns (word: Option<nat>)
      requires Valid()
      modifies this
      ensures Valid()
      ensures old(pos) + width > |bytes| ==> word == None && pos == old(pos)
      ensures old(pos) + width <= |bytes| ==>
              word == Some(FromBigEndian(bytes[old(pos)..old(pos) + width])) && pos == old(pos) + width
    {
      if pos + width > |bytes| {
        return None;
      }
      word := Some(FromBigEndian(bytes[pos..pos + width]));
      pos := pos + width;
    }

    method ParseValue(value: Value) returns (items: seq<int>, ok: bool)
      requires Valid()
      modifies this
      ensures Valid()
      ensures Progress(items, pos, ok) == ReadItems(value.kind, value.items, 0, bytes, old(pos))
    {
      items := value.items;
      for i := 0 to |items|
        invariant Valid() && |items| == |value.items|
        invariant ReadItems(value.kind, value.items, 0, bytes, old(pos)) == ReadItems(value.kind, items, i, bytes, pos)
      {
        var word := ParseWord(Width(value.kind));
        if word.None? {
          return items, false;
        }
        items := items[i := FromWord(value.kind, word.value)];
      }
      ok := true;
    }

    predicate Empty()
      reads this
    {
      pos == |bytes|
    }
  }

  /** PackageHeader::serializeHeader for a data package, in 16-bit arithmetic. */
  method SerializeHeader(buffer: array<uint8>, payloadLength: nat) returns (size: nat)
    requires HEADER_SIZE <= buffer.Length
    modifies buffer
    ensures size == HEADER_SIZE
    ensures buffer[..] ==
            Splice(old(buffer[..]), 0, BigEndian((HEADER_SIZE + payloadLength) % 0x1_0000, 2) + [DATA_PACKAGE])
  {
    hide Splice, BigEndian;
    var length := BigEndian((HEADER_SIZE + payloadLength) % 0x1_0000, 2);
    Memcpy(buffer, 0, length);
    Memcpy(buffer, 2, [DATA_PACKAGE]);
    SpliceTwice(old(buffer[..]), 0, length, [DATA_PACKAGE]);
    size := 3;
  }

  /** What parseWith makes of a package: its recipe id is on the wire in protocol version 2 only. */
  function ReadPackage(id: uint8, data: seq<Field>, version: nat, bytes: seq<uint8>, pos: nat)
    : (p: Progress<(uint8, seq<Field>)>)
    requires pos <= |bytes|
    ensures pos <= p.pos <= |bytes|
  {
    if version == 2 && pos == |bytes| then Progress((id, data), pos, false)
    else
      var (newId, start) := if version == 2 then (bytes[pos], pos + 1) else (id, pos);
      var p := ReadFields(data, 0, bytes, start);
      Progress((newId, p.done), p.pos, p.ok)
  }

  class DataPackage {
    var recipe: seq<string>
    var data: seq<Field>
    var recipeId: uint8
    var protocolVersion: nat

    /** Every field has the name that the recipe gives it. */
    ghost predicate Valid()
      reads this
    {
      Names(data) == recipe
    }

    constructor (recipe: seq<string>, protocolVersion: nat)
      ensures this.recipe == recipe && this.data == [] && this.recipeId == 0 && this.protocolVersion == protocolVersion
    {
      this.recipe, this.data, this.recipeId, this.protocolVersion := recipe, [], 0, protocolVersion;
    }

    /** Fills the package with zeros; an unknown name makes it throw and leaves the fields in front of that name. */
    method InitEmpty(types: map<string, Kind>) returns (r: Result<(), string>)
      modifies this`data
      ensures r.Success? <==> EmptyFields(recipe, types).Success?
      ensures r.Success? ==> data == EmptyFields(recipe, types).value && Valid()
      ensures r.Failure? ==> EmptyFields(recipe, types) == Failure(r.error)
    {
      data := [];
      assert recipe[0..] == recipe && forall rest: seq<Field> :: [] + rest == rest;
      for i := 0 to |recipe|
        invariant |data| == i && forall k :: 0 <= k < i ==> data[k].name == recipe[k]
        invariant EmptyFields(recipe, types) ==
                  match EmptyFields(recipe[i..], types) case Failure(name) => Failure(name) case Success(rest) => Success(data + rest)
      {
        if recipe[i] !in types {
          return Failure(recipe[i]);
        }
        var field := Field(recipe[i], Zero(types[recipe[i]]));
        assert recipe[i..][1..] == recipe[i + 1..];
        assert forall rest: seq<Field> :: data + ([field] + rest) == data + [field] + rest;
        data := data + [field];
      }
      return Success(());
    }

    method SetData(name: string, value: Value) returns (ok: bool)
      requires Valid()
      modifies this`data
      ensures Valid()
      ensures ok == SetField(old(data), name, value).Some?
      ensures data == if ok then SetField(old(data), name, value).value else old(data)
    {
      var i := 0;
      while i < |data| && data[i].name != name
        invariant i <= |data| && FieldIndex(data, name, 0) == FieldIndex(data, name, i)
      {
        i := i + 1;
      }
      if i == |data| || data[i].value.kind != value.kind {
        return false;
      }
      data := data[i := data[i].(value := value)];
      ok := true;
    }

    /** False where the source throws: the buffer ended too early, and what was read up to there has been stored. */
    method ParseWith(bp: BinParser) returns (ok: bool)
      requires Valid() && bp.Valid()
      modifies this`recipeId, this`data, bp
      ensures Valid() && bp.Valid()
      ensures Progress((recipeId, data), bp.pos, ok) ==
              old(ReadPackage(recipeId, data, protocolVersion, bp.bytes, bp.pos))
    {
      hide ReadItems;
      if protocolVersion == 2 {
        var id := bp.ParseWord(1);
        if id.None? {
          return false;
        }
        OneByte(bp.bytes, bp.pos - 1);
        recipeId := id.value;
      }
      ghost var (fields, start) := (data, bp.pos);
      for i := 0 to |recipe|
        invariant Valid() && bp.Valid()
        invariant |data| == |fields|
        invariant unchanged(`recipe) && unchanged(`protocolVersion)
        invariant recipeId == if protocolVersion == 2 then bp.bytes[old(bp.pos)] else old(recipeId)
        invariant ReadFields(fields, 0, bp.bytes, start) == ReadFields(data, i, bp.bytes, bp.pos)
      {
        var items, read := bp.ParseValue(data[i].value);
        ghost var names := Names(data);
        data := data[i := data[i].(value := Value(data[i].value.kind, items))];
        assert Names(data) == names;
        if !read {
          return false;
        }
      }
      ok := true;
    }

    method SerializePackage(buffer: array<uint8>) returns (size: nat)
      requires HEADER_SIZE + 1 + FieldBytes(data) <= buffer.Length
      modifies buffer
      ensures size == |Wire(recipeId, data)| == HEADER_SIZE + 1 + FieldBytes(data)
      ensures buffer[..] == Wire(recipeId, data) + old(buffer[..])[size..]
    {
      hide ItemBytes, FieldBytes, BigEndian, EncodeItems, Encode, Splice;
      EmptyEncode(data);
      var payloadSize := 1;
      for i := 0 to |data|
        invariant buffer[..] == old(buffer[..])
        invariant payloadSize == (1 + FieldBytes(data[..i])) % 0x1_0000
      {
        FieldBytesSnoc(data, i);
        payloadSize := (payloadSize + ItemBytes(data[i].value.kind, |data[i].value.items|)) % 0x1_0000;
      }
      assert data[..|data|] == data;
      ghost var head := BigEndian(SizeField(data), 2) + [DATA_PACKAGE];
      size := SerializeHeader(buffer, payloadSize);
      Memcpy(buffer, size, [recipeId]);
      SpliceTwice(old(buffer[..]), 0, head, [recipeId]);
      size := size + 1;
      head := head + [recipeId];
      assert head + Encode(data[..0]) == head;
      for i := 0 to |data|
        invariant size == 4 + FieldBytes(data[..i]) == |head + Encode(data[..i])|
        invariant size <= buffer.Length
        invariant buffer[..] == Splice(old(buffer[..]), 0, head + Encode(data[..i]))
      {
        FieldBytesSnoc(data, i);
        FieldBytesSplit(data, i + 1);
        EncodeSnoc(data, i);
        ghost var more := EncodeItems(data[i].value.kind, data[i].value.items);
        assert head + Encode(data[..i]) + more == head + Encode(data[..i + 1]);
        var fieldSize := Serialize(buffer, size, data[i].value);
        SpliceTwice(old(buffer[..]), 0, head + Encode(data[..i]), more);
        size := size + fieldSize;
      }
      SpliceAtStart(old(buffer[..]), head + Encode(data));
    }
  }


  /** How parsing a received buffer ends. */
  datatype Verdict = Accepted | Rejected | Thrown | OtherType(code: uint8)

  /** The type code in the header at `pos`, unless the buffer is shorter than the header or than its size field says. */
  function HeaderType(bytes: seq<uint8>, pos: nat): Option<uint8>
    requires pos <= |bytes|
  {
    if pos + HEADER_SIZE > |bytes| then None
    else
      var size := FromBigEndian(bytes[pos..pos + 2]);
      if HEADER_SIZE <= size <= |bytes| - pos then Some(bytes[pos + 2]) else None
  }

  /** What parsing into a data package with this id and these fields makes of the bytes from `pos` on. */
  function Judged(id: uint8, data: seq<Field>, version: nat, bytes: seq<uint8>, pos: nat): Verdict
    requires pos <= |bytes|
  {
    match HeaderType(bytes, pos)
    case None => Rejected
    case Some(code) =>
      if code != DATA_PACKAGE then OtherType(code)
      else
        var p := ReadPackage(id, data, version, bytes, pos + HEADER_SIZE);
        if !p.ok then Thrown else if p.pos == |bytes| then Accepted else Rejected
  }

  class RTDEParser {
    const recipe: seq<string>
    const types: map<string, Kind>
    var protocolVersion: nat

    constructor (recipe: seq<string>, types: map<string, Kind>)
      ensures this.recipe == recipe && this.types == types && protocolVersion == 1
    {
      this.recipe, this.types, protocolVersion := recipe, types, 1;
    }

    method GetPackageTypeFromHeader(bp: BinParser) returns (code: Option<uint8>)
      requires bp.Valid()
      modifies bp
      ensures bp.Valid()
      ensures code == HeaderType(bp.bytes, old(bp.pos))
      ensures code.Some? ==> bp.pos == old(bp.pos) + HEADER_SIZE
    {
      var size := bp.ParseWord(2);
      if size.None? {
        return None;
      }
      var packageType := bp.ParseWord(1);
      if packageType.None? {
        return None;
      }
      OneByte(bp.bytes, bp.pos - 1);
      // size_t arithmetic: a size below three wraps around to more than any buffer holds
      var rest: int := size.value as int - 2 - 1;
      if rest < 0 || rest > |bp.bytes| - bp.pos {
        return None;
      }
      code := Some(packageType.value);
    }

    /** `result` is the pre-allocated data package, or null if there is none or it is a package of another type. */
    method Parse(bp: BinParser, result: DataPackage?) returns (verdict: Verdict, package: DataPackage?)
      requires bp.Valid() && (result != null ==> result.Valid())
      modifies bp, result
      ensures bp.Valid()
      ensures result != null ==>
              && package == result
              && verdict == old(Judged(result.recipeId, result.data, result.protocolVersion, bp.bytes, bp.pos))
              && (verdict == Accepted ==>
                    (result.recipeId, result.data) ==
                    old(ReadPackage(result.recipeId, result.data, result.protocolVersion, bp.bytes, bp.pos + HEADER_SIZE).done))
      ensures result == null && EmptyFields(recipe, types).Success? ==>
              var fields := EmptyFields(recipe, types).value;
              && verdict == old(Judged(0, fields, protocolVersion, bp.bytes, bp.pos))
              && (verdict == Accepted ==>
                    package != null && fresh(package) &&
                    (package.recipeId, package.data) ==
                    old(ReadPackage(0, fields, protocolVersion, bp.bytes, bp.pos + HEADER_SIZE).done))
      ensures result == null && EmptyFields(recipe, types).Failure? ==> verdict != Accepted
    {
      package := result;
      var code := GetPackageTypeFromHeader(bp);
      if code.None? {
        return Rejected, package;
      }
      if code.value != DATA_PACKAGE {
        return OtherType(code.value), package;
      }
      if package == null {
        package := new DataPackage(recipe, protocolVersion);
        var filled := package.InitEmpty(types);
        if filled.Failure? {
          return Thrown, null;
        }
      }
      var parsed := package.ParseWith(bp);
      if !parsed {
        return Thrown, package;
      }
      verdict := if bp.Empty() then Accepted else Rejected;
    }
  }

  lemma OneByte(bytes: seq<uint8>, pos: nat)
    requires pos < |bytes|
    ensures FromBigEndian(bytes[pos..pos + 1]) == bytes[pos]
  {
    assert bytes[pos..pos + 1] == [bytes[pos]];
    assert [bytes[pos]][..0] == [];
  }

  lemma EmptyEncode(data: seq<Field>)
    ensures Encode(data[..0]) == [] && FieldBytes(data[..0]) == 0
  {
  }

  lemma SpliceAtStart(s: seq<uint8>, bytes: seq<uint8>)
    requires |bytes| <= |s|
    ensures Splice(s, 0, bytes) == bytes + s[|bytes|..]
  {
  }

  lemma {:induction false} FieldBytesSnoc(data: seq<Field>, i: nat)
    requires i < |data|
    ensures FieldBytes(data[..i + 1]) == FieldBytes(data[..i]) + ItemBytes(data[i].value.kind, |data[i].value.items|)
  {
    FieldBytesSplit(data[..i + 1], i);
    assert data[..i + 1][..i] == data[..i] && data[..i + 1][i..] == [data[i]];
    assert [data[i]][1..] == [];
  }

  // Round trips

  /** The same names and types, with whatever values. */
  ghost predicate SameShape(a: seq<Field>, b: seq<Field>) {
    && |a| == |b|
    && forall k :: 0 <= k < |a| ==>
         && a[k].name == b[k].name && a[k].value.kind == b[k].value.kind
         && |a[k].value.items| == |b[k].value.items|
  }

  /** Reading overwrites every item with the one that was written. */
  lemma {:induction false} ItemsRoundTrip(kind: Kind, items: seq<int>, i: nat, blank: seq<int>, bytes: seq<uint8>, pos: nat)
    requires i <= |items| == |blank| && blank[..i] == items[..i]
    requires forall k :: 0 <= k < |items| ==> InRange(kind, items[k])
    requires pos <= |bytes| && EncodeItems(kind, items[i..]) <= bytes[pos..]
    ensures ReadItems(kind, blank, i, bytes, pos) ==
            Progress(items, pos + |EncodeItems(kind, items[i..])|, true)
    decreases |items| - i
  {
    hide BigEndian, FromBigEndian, FromWord, ToWord, InRange, Width;
    if i == |items| {
      assert blank == items;
    } else {
      var word := BigEndian(ToWord(kind, items[i]), Width(kind));
      var rest := EncodeItems(kind, items[i + 1..]);
      assert items[i..][1..] == items[i + 1..];
      assert EncodeItems(kind, items[i..]) == word + rest;
      WordInFront(bytes, pos, word, rest);
      ItemRoundTrip(kind, items[i]);
      ItemsRoundTrip(kind, items, i + 1, blank[i := items[i]], bytes, pos + Width(kind));
    }
  }

  lemma WordInFront(bytes: seq<uint8>, pos: nat, word: seq<uint8>, rest: seq<uint8>)
    requires pos <= |bytes| && word + rest <= bytes[pos..]
    ensures pos + |word| <= |bytes| && bytes[pos..pos + |word|] == word && rest <= bytes[pos + |word|..]
  {
    assert bytes[pos..][..|word + rest|] == word + rest;
    assert bytes[pos..][..|word|] == word;
    assert bytes[pos + |word|..][..|rest|] == rest;
  }

  lemma {:induction false} FieldsRoundTrip(data: seq<Field>, i: nat, blank: seq<Field>, bytes: seq<uint8>, pos: nat)
    requires i <= |data| && SameShape(blank, data) && FieldsWellFormed(data)
    requires forall k :: 0 <= k < i ==> blank[k] == data[k]
    requires pos <= |bytes| && Encode(data[i..]) <= bytes[pos..]
    ensures ReadFields(blank, i, bytes, pos) == Progress(data, pos + |Encode(data[i..])|, true)
    decreases |data| - i
  {
    hide FromBigEndian, FromWord, ToWord, InRange, Width, BigEndian;
    if i == |data| {
      assert blank == data;
    } else {
      var value := data[i].value;
      var first := EncodeItems(value.kind, value.items);
      assert data[i..][1..] == data[i + 1..];
      assert Encode(data[i..]) == first + Encode(data[i + 1..]);
      WordInFront(bytes, pos, first, Encode(data[i + 1..]));
      assert value.items[0..] == value.items && WellFormed(value);
      assert first <= bytes[pos..];
      ItemsRoundTrip(value.kind, value.items, 0, blank[i].value.items, bytes, pos);
      hide ReadItems, EncodeItems, Encode, FieldsWellFormed;
      assert blank[i].(value := value) == data[i];
      FieldsRoundTrip(data, i + 1, blank[i := data[i]], bytes, pos + |first|);
    }
  }

  /** Reading needs exactly the bytes that the fields take, whatever they hold. */
  lemma {:induction false} ItemsNeedTheirBytes(kind: Kind, items: seq<int>, i: nat, bytes: seq<uint8>, pos: nat)
    requires i <= |items| && pos <= |bytes|
    ensures var p := ReadItems(kind, items, i, bytes, pos);
            && (p.ok <==> pos + ItemBytes(kind, |items| - i) <= |bytes|)
            && (p.ok ==> p.pos == pos + ItemBytes(kind, |items| - i))
    decreases |items| - i
  {
    if i < |items| && pos + Width(kind) <= |bytes| {
      var item := FromWord(kind, FromBigEndian(bytes[pos..pos + Width(kind)]));
      ItemsNeedTheirBytes(kind, items[i := item], i + 1, bytes, pos + Width(kind));
    }
  }

  lemma {:induction false} FieldsNeedTheirBytes(data: seq<Field>, i: nat, bytes: seq<uint8>, pos: nat)
    requires i <= |data| && pos <= |bytes|
    ensures var p := ReadFields(data, i, bytes, pos);
            && (p.ok <==> pos + FieldBytes(data[i..]) <= |bytes|)
            && (p.ok ==> p.pos == pos + FieldBytes(data[i..]))
    decreases |data| - i
  {
    if i < |data| {
      var value := data[i].value;
      ItemsNeedTheirBytes(value.kind, value.items, 0, bytes, pos);
      assert data[i..][1..] == data[i + 1..];
      var p := ReadItems(value.kind, value.items, 0, bytes, pos);
      var read := data[i := data[i].(value := Value(value.kind, p.done))];
      if p.ok {
        assert read[i + 1..] == data[i + 1..];
        FieldsNeedTheirBytes(read, i + 1, bytes, p.pos);
      }
    }
  }

  /** Which byte strings the parser accepts as a data package: those of exactly its fields' size, whatever follows the header. */
  lemma AcceptedExactly(id: uint8, data: seq<Field>, version: nat, bytes: seq<uint8>)
    ensures Judged(id, data, version, bytes, 0) == Accepted <==>
            && |bytes| == HEADER_SIZE + (if version == 2 then 1 else 0) + FieldBytes(data)
            && HEADER_SIZE <= FromBigEndian(bytes[..2]) <= |bytes| && bytes[2] == DATA_PACKAGE
  {
    if HEADER_SIZE <= |bytes| {
      assert bytes[0..2] == bytes[..2];
      var start := if version == 2 then HEADER_SIZE + 1 else HEADER_SIZE;
      assert data[0..] == data;
      hide ReadFields, FieldBytes, FromBigEndian;
      if start <= |bytes| {
        FieldsNeedTheirBytes(data, 0, bytes, start);
      }
    }
  }

  /** The size field tells the bytes written, unless they do not fit in 16 bits. */
  lemma SizeFieldIsSize(id: uint8, data: seq<Field>)
    ensures FromBigEndian(Wire(id, data)[..2]) == |Wire(id, data)| <==> |Wire(id, data)| < 0x1_0000
  {
    EncodedLength(data);
    assert Wire(id, data)[..2] == BigEndian(SizeField(data), 2);
    SizeFits(SizeField(data));
  }

  lemma SizeFits(size: nat)
    requires size < 0x1_0000
    ensures FromBigEndian(BigEndian(size, 2)) == size
  {
    assert Pow256(2) == 0x1_0000 by {
      assert Pow256(1) == 256 * Pow256(0);
    }
    WordRoundTrip(size, 2);
  }

  /**
   * Parsing a serialized data package in protocol version 2 with the same recipe gives back its id and all its
   * values and consumes every byte; with any other version one byte is left over and the parser rejects it. The one
   * size that no version accepts is one that wraps around to less than the header's own.
   */
  lemma PackageRoundTrip(id: uint8, data: seq<Field>, oldId: uint8, blank: seq<Field>, version: nat)
    requires FieldsWellFormed(data) && SameShape(blank, data)
    ensures var bytes := Wire(id, data);
            && (Judged(oldId, blank, version, bytes, 0) == Accepted <==> version == 2 && SizeField(data) >= HEADER_SIZE)
            && ReadPackage(oldId, blank, 2, bytes, HEADER_SIZE) == Progress((id, data), |bytes|, true)
  {
    var bytes := Wire(id, data);
    EncodedLength(data);
    SameShapeSameBytes(blank, data);
    SizeFits(SizeField(data));
    AcceptedExactly(oldId, blank, version, bytes);
    assert bytes[..2] == BigEndian(SizeField(data), 2);
    assert bytes[HEADER_SIZE + 1..] == Encode(data);
    assert data[0..] == data;
    hide Encode, BigEndian, FromBigEndian, FieldBytes, ReadFields, SizeField, FieldsWellFormed, SameShape;
    FieldsRoundTrip(data, 0, blank, bytes, HEADER_SIZE + 1);
    SizeFieldAtMost(data);
  }

  lemma SizeFieldAtMost(data: seq<Field>)
    ensures SizeField(data) <= HEADER_SIZE + 1 + FieldBytes(data)
  {
  }

  lemma {:induction false} SameShapeSameBytes(a: seq<Field>, b: seq<Field>)
    requires SameShape(a, b)
    ensures FieldBytes(a) == FieldBytes(b)
  {
    if a != [] {
      SameShapeSameBytes(a[1..], b[1..]);
    }
  }
}
