/** The snapshot text: each holder becomes one block naming its address and the
    number of its assets, and the blocks are joined with a newline. Reading
    `.assets` of an element that is not an object, or taking `.length` of a
    missing `assets` field, throws; the whole formatting then fails. */
module Report {
  import opened Api
  import opened Decimal

  /** The formatting threw while mapping the element at `index`. */
  datatype FormatError = TypeError(index: nat)

  const AddressLabel := "Address: "
  const AssetsLabel := "\nAssets: "
  const BlockEnd := "\n\n"
  const Separator := "\n"

  /** An element whose block can be produced: a holder object with an `assets` array. */
  predicate Formattable(item: Item)
  {
    item.Holder? && item.assets.Some?
  }

  /** An address as a template literal renders it; a missing one reads "undefined". */
  function AddressText(address: Option<string>): (text: string)
    ensures address.Some? ==> text == address.value
    ensures address.None? ==> text == "undefined"
  {
    match address
    case Some(s) => s
    case None => "undefined"
  }

  /** The block of one holder: its address, then its asset count, then a blank line. */
  function Block(item: Item): (b: string)
    requires Formattable(item)
    ensures |AddressLabel + AddressText(item.address) + AssetsLabel| + 2 < |b|
    ensures b[..|AddressLabel + AddressText(item.address) + AssetsLabel|] == AddressLabel + AddressText(item.address) + AssetsLabel
    ensures b[|b| - 2..] == BlockEnd
    ensures forall i :: |AddressLabel + AddressText(item.address) + AssetsLabel| <= i < |b| - 2 ==> IsDigit(b[i])
  {
    var pre := AddressLabel + AddressText(item.address) + AssetsLabel;
    var digits := NatToString(|item.assets.value|);
    var b := pre + digits + BlockEnd;
    assert b[..|pre|] == pre;
    assert forall i :: |pre| <= i < |b| - 2 ==> b[i] == digits[i - |pre|];
    b
  }

  /** Every element mapped to its block, in order, or the index of the first
      element that makes the mapping throw. */
  function Blocks(items: seq<Item>): (r: Result<seq<string>, FormatError>)
    ensures r.Ok? <==> forall i :: 0 <= i < |items| ==> Formattable(items[i])
    ensures r.Ok? ==> (|r.value| == |items| &&
      forall i :: 0 <= i < |items| ==> Formattable(items[i]) && r.value[i] == Block(items[i]))
    ensures r.Err? ==> (r.error.index < |items| && !Formattable(items[r.error.index]) &&
      forall j :: 0 <= j < r.error.index ==> Formattable(items[j]))
  {
    if items == [] then Ok([])
    else if !Formattable(items[0]) then Err(TypeError(0))
    else
      match Blocks(items[1..])
      case Ok(bs) => Ok([Block(items[0])] + bs)
      case Err(e) => Err(TypeError(e.index + 1))
  }

  /** The parts with `sep` between each adjacent pair, as `Array.prototype.join` does. */
  function Join(parts: seq<string>, sep: string): (j: string)
    ensures parts == [] ==> j == ""
    ensures parts != [] ==> parts[0] <= j
    ensures |parts| == 1 ==> j == parts[0]
    ensures |parts| > 1 ==> |parts[0]| + |sep| <= |j| && j[|parts[0]|..|parts[0]| + |sep|] == sep
  {
    if |parts| == 0 then ""
    else if |parts| == 1 then parts[0]
    else
      var tail := Join(parts[1..], sep);
      var j := parts[0] + sep + tail;
      assert j[..|parts[0]|] == parts[0];
      j
  }

  /** The snapshot: the blocks of all holders joined with a newline. It exists
      exactly when every element is formattable, and an empty holder list gives
      the empty snapshot. */
  function Snapshot(items: seq<Item>): (r: Result<string, FormatError>)
    ensures r.Ok? <==> forall i :: 0 <= i < |items| ==> Formattable(items[i])
    ensures items == [] ==> r == Ok("")
  {
    match Blocks(items)
    case Ok(bs) => Ok(Join(bs, Separator))
    case Err(e) => Err(e)
  }

  /** Joining two non-empty runs of parts is joining each and putting `sep` between. */
  lemma {:induction false} JoinAppend(a: seq<string>, b: seq<string>, sep: string)
    requires |a| >= 1 && |b| >= 1
    ensures Join(a + b, sep) == Join(a, sep) + sep + Join(b, sep)
    decreases |a|
  {
    var ab := a + b;
    assert ab[0] == a[0];
    if |a| == 1 {
      assert ab[1..] == b;
      assert Join(ab, sep) == a[0] + sep + Join(b, sep);
    } else {
      assert ab[1..] == a[1..] + b;
      JoinAppend(a[1..], b, sep);
      assert Join(ab, sep) == a[0] + sep + Join(a[1..] + b, sep);
      assert Join(a, sep) == a[0] + sep + Join(a[1..], sep);
    }
  }

  /** Mapping to blocks distributes over concatenation. */
  lemma {:induction false} BlocksAppend(a: seq<Item>, b: seq<Item>)
    requires Blocks(a).Ok? && Blocks(b).Ok?
    ensures Blocks(a + b) == Ok(Blocks(a).value + Blocks(b).value)
  {
    var r := Blocks(a + b);
    assert r.Ok? by {
      forall i | 0 <= i < |a + b| ensures Formattable((a + b)[i]) {
        if i < |a| { assert (a + b)[i] == a[i]; } else { assert (a + b)[i] == b[i - |a|]; }
      }
    }
    var bs := Blocks(a).value + Blocks(b).value;
    assert |r.value| == |bs|;
    forall i | 0 <= i < |bs| ensures r.value[i] == bs[i] {
      if i < |a| { assert (a + b)[i] == a[i]; } else { assert (a + b)[i] == b[i - |a|]; }
    }
    assert r.value == bs;
  }

  /** Formatting the holders of two runs of pages together gives the two
      snapshots with a newline between them: the report does not depend on how
      the holders were split into pages. */
  lemma SnapshotAppend(a: seq<Item>, b: seq<Item>)
    requires a != [] && b != []
    requires Snapshot(a).Ok? && Snapshot(b).Ok?
    ensures Snapshot(a + b) == Ok(Snapshot(a).value + Separator + Snapshot(b).value)
  {
    BlocksAppend(a, b);
    JoinAppend(Blocks(a).value, Blocks(b).value, Separator);
  }

  /** The length of the text in front of the asset count in a holder's block. */
  function CountOffset(address: Option<string>): nat
  {
    |AddressLabel + AddressText(address) + AssetsLabel|
  }

  /** A holder's block opens with the address label and the address, and closes
      with a blank line; the digits between the assets label and that blank line
      read back as the number of assets, whatever the assets are. */
  lemma BlockStatesCount(address: Option<string>, assets: seq<Asset>)
    ensures var s := Block(Holder(address, Some(assets)));
      var k := CountOffset(address);
      k + 2 < |s| &&
      s[..k] == AddressLabel + AddressText(address) + AssetsLabel &&
      s[|s| - 2..] == BlockEnd &&
      (forall i :: k <= i < |s| - 2 ==> IsDigit(s[i])) &&
      DecimalValue(s[k..|s| - 2]) == |assets|
  {
    var s := Block(Holder(address, Some(assets)));
    var pre := AddressLabel + AddressText(address) + AssetsLabel;
    var digits := NatToString(|assets|);
    assert s == pre + digits + BlockEnd;
    assert s[..|pre|] == pre;
    assert s[|pre|..|s| - 2] == digits;
    DecimalRoundTrip(|assets|);
  }

  /** Two holders with the same address have the same block exactly when they
      hold the same number of assets. */
  lemma BlockDependsOnlyOnCount(address: Option<string>, x: seq<Asset>, y: seq<Asset>)
    ensures Block(Holder(address, Some(x))) == Block(Holder(address, Some(y))) <==> |x| == |y|
  {
    if Block(Holder(address, Some(x))) == Block(Holder(address, Some(y))) {
      BlockStatesCount(address, x);
      BlockStatesCount(address, y);
    }
  }

  /** The one-page example: two holders, with two assets and with none, give
      two blocks joined by a newline. */
  lemma TwoHolderExample(a: Asset, b: Asset)
    ensures Snapshot([Holder(Some("addr1"), Some([a, b])), Holder(Some("addr2"), Some([]))]) ==
      Ok("Address: addr1\nAssets: 2\n\n" + "\n" + "Address: addr2\nAssets: 0\n\n")
  {
    var items := [Holder(Some("addr1"), Some([a, b])), Holder(Some("addr2"), Some([]))];
    var b0, b1 := "Address: addr1\nAssets: 2\n\n", "Address: addr2\nAssets: 0\n\n";
    assert DigitChar(2) == '2' && DigitChar(0) == '0';
    assert NatToString(2) == "2" && NatToString(0) == "0";
    assert Block(items[0]) == b0;
    assert Block(items[1]) == b1;
    var bs := Blocks(items).value;
    assert bs == [b0, b1];
    assert bs[1..] == [b1];
    assert Join(bs, Separator) == b0 + Separator + b1;
  }
}
