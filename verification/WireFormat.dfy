/** Which byte of a data package on the wire is which: where every item of every field is written and read. */
module WireFormat {
  import opened DataPackages
  import opened Wrappers

  /** The number in these bits, whatever the sign of the item. */
  function Bits(item: int, width: nat): nat {
    PowersArePositive(width);
    item % Pow256(width)
  }

  lemma {:induction false} PowersArePositive(n: nat)
    ensures Pow256(n) > 0
  {
    if n > 0 {
      PowersArePositive(n - 1);
    }
  }

  lemma WordIsBits(kind: Kind, item: int)
    requires InRange(kind, item)
    ensures ToWord(kind, item) == Bits(item, Width(kind))
  {
    PowersOf256();
    hide Pow256;
    WordFits(kind, item);
    PowersArePositive(Width(kind));
    if item >= 0 {
      SmallRemainder(item, Pow256(Width(kind)));
    }
  }

  lemma SmallRemainder(n: nat, p: nat)
    requires n < p
    ensures n % p == n
  {
  }

  /** Byte b, from the front, of a word. */
  lemma {:induction false} BigEndianAt(word: nat, width: nat, b: nat)
    requires b < width
    ensures Pow256(width - 1 - b) > 0
    ensures BigEndian(word, width)[b] == word / Pow256(width - 1 - b) % 256
  {
    PowersArePositive(width - 1 - b);
    if b < width - 1 {
      BigEndianAt(word / 256, width - 1, b);
      PowersArePositive(width - 2 - b);
      QuotientsOfQuotient(word, Pow256(width - 2 - b));
    }
  }

  lemma {:induction false} ItemsAt(kind: Kind, items: seq<int>, j: nat, b: nat)
    requires j < |items| && b < Width(kind)
    ensures ItemBytes(kind, j) + b < |EncodeItems(kind, items)|
    ensures EncodeItems(kind, items)[ItemBytes(kind, j) + b] == BigEndian(ToWord(kind, items[j]), Width(kind))[b]
  {
    hide BigEndian, ToWord;
    EncodedItemsLength(kind, items);
    if j > 0 {
      ItemsAt(kind, items[1..], j - 1, b);
    }
  }

  lemma {:induction false} FieldsAt(data: seq<Field>, k: nat, x: nat)
    requires k < |data| && x < |EncodeItems(data[k].value.kind, data[k].value.items)|
    ensures FieldBytes(data[..k]) + x < |Encode(data)|
    ensures Encode(data)[FieldBytes(data[..k]) + x] == EncodeItems(data[k].value.kind, data[k].value.items)[x]
  {
    hide EncodeItems, ItemBytes;
    var first := EncodeItems(data[0].value.kind, data[0].value.items);
    EncodedItemsLength(data[0].value.kind, data[0].value.items);
    if k > 0 {
      FieldsAt(data[1..], k - 1, x);
      assert data[..k][1..] == data[1..][..k - 1];
    }
  }

  /**
   * A package on the wire: its size in two bytes, the higher one first, the type, the recipe id, and then field after
   * field and item after item, each in two's complement with the highest byte first.
   */
  lemma WireByteByByte(id: uint8, data: seq<Field>, k: nat, j: nat, b: nat)
    requires k < |data| && j < |data[k].value.items| && b < Width(data[k].value.kind)
    requires InRange(data[k].value.kind, data[k].value.items[j])
    ensures var (wire, size) := (Wire(id, data), 4 + FieldBytes(data));
            && |wire| == size
            && wire[0] == size / 256 % 256 && wire[1] == size % 256 && wire[2] == 85 && wire[3] == id
    ensures var (wire, width) := (Wire(id, data), Width(data[k].value.kind));
            var at := 4 + FieldBytes(data[..k]) + ItemBytes(data[k].value.kind, j) + b;
            && at < |wire| && Pow256(width - 1 - b) > 0
            && wire[at] == Bits(data[k].value.items[j], width) / Pow256(width - 1 - b) % 256
  {
    hide BigEndian, Encode, EncodeItems, Width, ItemBytes, FieldBytes, Pow256, Bits, ToWord, Wire, InRange;
    var (kind, items) := (data[k].value.kind, data[k].value.items);
    HeaderBytes(id, data);
    ItemsAt(kind, items, j, b);
    FieldsAt(data, k, ItemBytes(kind, j) + b);
    PayloadAt(id, data, FieldBytes(data[..k]) + (ItemBytes(kind, j) + b));
    WordIsBits(kind, items[j]);
    BigEndianAt(ToWord(kind, items[j]), Width(kind), b);
  }

  lemma PayloadAt(id: uint8, data: seq<Field>, x: nat)
    requires x < |Encode(data)|
    ensures 4 + x < |Wire(id, data)| && Wire(id, data)[4 + x] == Encode(data)[x]
  {
    hide BigEndian, Encode;
    assert Wire(id, data)[4..] == Encode(data);
  }

  lemma HeaderBytes(id: uint8, data: seq<Field>)
    ensures var (wire, size) := (Wire(id, data), 4 + FieldBytes(data));
            && |wire| == size
            && wire[0] == size / 256 % 256 && wire[1] == size % 256 && wire[2] == 85 && wire[3] == id
  {
    EncodedLength(data);
    var n := 4 + FieldBytes(data);
    hide BigEndian, FieldBytes, Encode;
    TwoBytesOf(n % 0x1_0000);
    HighAndLow(n);
  }

  lemma TwoBytesOf(size: nat)
    requires size < 0x1_0000
    ensures BigEndian(size, 2) == [size / 256, size % 256]
  {
    assert BigEndian(size, 2) == BigEndian(size / 256, 1) + [size % 256];
    assert BigEndian(size / 256, 1) == BigEndian(size / 256 / 256, 0) + [size / 256 % 256];
  }

  lemma HighAndLow(n: nat)
    ensures n % 0x1_0000 / 256 == n / 256 % 256 && n % 0x1_0000 % 256 == n % 256
  {
  }

  // Reading

  /** Any word of the right size is read as an item in range, congruent to it; any but zero is a true boolean. */
  lemma FromWordExactly(kind: Kind, word: nat)
    requires word < Pow256(Width(kind))
    ensures InRange(kind, FromWord(kind, word))
    ensures kind == Boolean ==> (FromWord(kind, word) == 0 <==> word == 0)
    ensures kind != Boolean ==> Bits(FromWord(kind, word), Width(kind)) == word
  {
    PowersOf256();
    hide Pow256;
    PowersArePositive(Width(kind));
    SmallRemainder(word, Pow256(Width(kind)));
  }

  /** An item behind i is overwritten as long as the bytes suffice, and otherwise left. */
  lemma {:induction false} ItemsReadAt(kind: Kind, items: seq<int>, i: nat, bytes: seq<uint8>, pos: nat, j: nat)
    requires i <= |items| && pos <= |bytes| && j < |items|
    ensures var at := pos + ItemBytes(kind, if j < i then 0 else j - i);
            ReadItems(kind, items, i, bytes, pos).done[j] ==
            if j >= i && at + Width(kind) <= |bytes| then FromWord(kind, FromBigEndian(bytes[at..at + Width(kind)]))
            else items[j]
    decreases |items| - i
  {
    hide FromWord, FromBigEndian, Width;
    if i < |items| && pos + Width(kind) <= |bytes| {
      var item := FromWord(kind, FromBigEndian(bytes[pos..pos + Width(kind)]));
      ItemsReadAt(kind, items[i := item], i + 1, bytes, pos + Width(kind), j);
    }
  }

  lemma {:induction false} FieldsReadAt(data: seq<Field>, i: nat, bytes: seq<uint8>, pos: nat, k: nat)
    requires i <= |data| && pos <= |bytes| && k < |data| && ReadFields(data, i, bytes, pos).ok
    ensures k < i ==> ReadFields(data, i, bytes, pos).done[k] == data[k]
    ensures k >= i ==>
            var (at, value) := (pos + FieldBytes(data[i..k]), data[k].value);
            && at <= |bytes|
            && ReadFields(data, i, bytes, pos).done[k] ==
               Field(data[k].name, Value(value.kind, ReadItems(value.kind, value.items, 0, bytes, at).done))
            && ReadItems(value.kind, value.items, 0, bytes, at).ok
    decreases |data| - i
  {
    hide ReadItems, ItemBytes;
    if i < |data| {
      var value := data[i].value;
      var p := ReadItems(value.kind, value.items, 0, bytes, pos);
      ItemsNeedTheirBytes(value.kind, value.items, 0, bytes, pos);
      var read := data[i := data[i].(value := Value(value.kind, p.done))];
      FieldsReadAt(read, i + 1, bytes, p.pos, k);
      if k > i {
        assert read[i + 1..k] == data[i + 1..k] && data[i..k][1..] == data[i + 1..k];
      }
    }
  }

  /** In what is read, item j of field k comes from the bytes that it has on the wire. */
  lemma ReadByteByByte(data: seq<Field>, bytes: seq<uint8>, pos: nat, k: nat, j: nat)
    requires pos <= |bytes| && ReadFields(data, 0, bytes, pos).ok
    requires k < |data| && j < |data[k].value.items|
    ensures var (kind, read) := (data[k].value.kind, ReadFields(data, 0, bytes, pos).done[k]);
            var at := pos + FieldBytes(data[..k]) + ItemBytes(kind, j);
            && read.name == data[k].name && read.value.kind == kind && |read.value.items| == |data[k].value.items|
            && at + Width(kind) <= |bytes|
            && read.value.items[j] == FromWord(kind, FromBigEndian(bytes[at..at + Width(kind)]))
  {
    hide ReadFields, ReadItems, FromWord, FromBigEndian, FieldBytes, ItemBytes, Width;
    FieldsReadAt(data, 0, bytes, pos, k);
    assert data[0..k] == data[..k];
    ValueReadAt(data[k].value.kind, data[k].value.items, bytes, pos + FieldBytes(data[..k]), j);
  }

  lemma ValueReadAt(kind: Kind, items: seq<int>, bytes: seq<uint8>, pos: nat, j: nat)
    requires pos <= |bytes| && j < |items| && ReadItems(kind, items, 0, bytes, pos).ok
    ensures var at := pos + ItemBytes(kind, j);
            && at + Width(kind) <= |bytes|
            && ReadItems(kind, items, 0, bytes, pos).done[j] == FromWord(kind, FromBigEndian(bytes[at..at + Width(kind)]))
  {
    hide ReadItems, FromWord, FromBigEndian, ItemBytes, Width;
    ItemsReadAt(kind, items, 0, bytes, pos, j);
    ItemsNeedTheirBytes(kind, items, 0, bytes, pos);
    OneMoreItem(kind, j);
    ItemBytesGrow(kind, j + 1, |items|);
  }

  lemma OneMoreItem(kind: Kind, j: nat)
    ensures ItemBytes(kind, j + 1) == Width(kind) + ItemBytes(kind, j)
  {
  }

  lemma {:induction false} ItemBytesGrow(kind: Kind, m: nat, n: nat)
    requires m <= n
    ensures ItemBytes(kind, m) <= ItemBytes(kind, n)
  {
    hide Width;
    if m < n {
      ItemBytesGrow(kind, m, n - 1);
    }
  }

  // How parsing ends

  /** The header is there, and its size is at least that of a header and no more than what was received. */
  predicate HeaderHolds(bytes: seq<uint8>) {
    |bytes| >= 3 && 3 <= 256 * (bytes[0] as int) + bytes[1] as int <= |bytes|
  }

  /** Each of the four ways in which parsing a received buffer ends, by its header and its length. */
  lemma JudgedExactly(id: uint8, data: seq<Field>, version: nat, bytes: seq<uint8>)
    ensures var (r, need) := (Judged(id, data, version, bytes, 0), (if version == 2 then 4 else 3) + FieldBytes(data));
            && (r == Accepted <==> HeaderHolds(bytes) && bytes[2] == 85 && |bytes| == need)
            && (r == Thrown <==> HeaderHolds(bytes) && bytes[2] == 85 && |bytes| < need)
            && (r == Rejected <==> HeaderHolds(bytes) ==> bytes[2] == 85 && |bytes| > need)
            && (forall code :: r == OtherType(code) <==> HeaderHolds(bytes) && bytes[2] == code && code != 85)
  {
    if |bytes| >= 3 {
      TwoBytes(bytes[0..2]);
      assert bytes[0..2][0] == bytes[0] && bytes[0..2][1] == bytes[1];
      var start := if version == 2 then 4 else 3;
      assert data[0..] == data;
      hide ReadFields, FieldBytes, FromBigEndian;
      if start <= |bytes| {
        FieldsNeedTheirBytes(data, 0, bytes, start);
      }
    }
  }

  lemma TwoBytes(bytes: seq<uint8>)
    requires |bytes| == 2
    ensures FromBigEndian(bytes) == 256 * (bytes[0] as int) + bytes[1] as int
  {
    assert bytes[..1] == [bytes[0]] && [bytes[0]][..0] == [];
    assert FromBigEndian([bytes[0]]) == bytes[0];
  }

  // A new package

  /** A recipe gives one zero field a name, in its order; it fails at the first name that has no type. */
  lemma {:induction false} EmptyFieldsExactly(recipe: seq<string>, types: map<string, Kind>)
    ensures match EmptyFields(recipe, types)
            case Success(data) =>
              && |data| == |recipe|
              && forall k :: 0 <= k < |recipe| ==>
                   && recipe[k] in types && data[k].name == recipe[k] && data[k].value.kind == types[recipe[k]]
                   && |data[k].value.items| == (match types[recipe[k]]
                                               case Vector3d => 3
                                               case Vector6d | Vector6Int32 | Vector6UInt32 => 6
                                               case _ => 1)
                   && forall j :: 0 <= j < |data[k].value.items| ==> data[k].value.items[j] == 0
            case Failure(name) =>
              exists k :: 0 <= k < |recipe| && recipe[k] == name && name !in types
                          && forall i :: 0 <= i < k ==> recipe[i] in types
  {
    if recipe != [] && recipe[0] in types {
      EmptyFieldsExactly(recipe[1..], types);
      if EmptyFields(recipe[1..], types).Failure? {
        var name := EmptyFields(recipe[1..], types).error;
        var k :| 0 <= k < |recipe| - 1 && recipe[1..][k] == name && name !in types
                 && forall i :: 0 <= i < k ==> recipe[1..][i] in types;
        forall i | 0 <= i < k + 1 ensures recipe[i] in types {
          if i > 0 {
            assert recipe[1..][i - 1] == recipe[i];
          }
        }
        assert recipe[k + 1] == name;
      }
    }
  }
}
