/** The composite order identity (Program.cs, the four strings computed
    after the contact is parsed): rows that agree on it are merged into one
    order. */
module Identity {
  import opened Text
  import opened Dates
  import opened Wrappers

  /** The order id, or when it is empty a synthetic "ORD-" + city with its
      blanks removed. Distinct unlabelled orders from one city share this
      synthetic id; only the rest of the key separates them. */
  function BaseId(id: string, city: string): (r: string)
    ensures r != []
    ensures id != [] ==> r == id
    ensures id == [] ==> |r| >= 4 && r[..4] == "ORD-" && r[4..] == RemoveChar(city, ' ')
    ensures id == [] ==> ' ' !in r && |r| == 4 + |city| - Count(city, ' ')
  {
    if id != [] then id else "ORD-" + RemoveChar(city, ' ')
  }

  /** An unlabelled order from "New York" gets the id "ORD-NewYork". */
  lemma BaseIdOfCity()
    ensures BaseId("", "New York") == "ORD-NewYork"
  {
    assert "New" + " " + "York" == "New York";
    BaseIdOfTwoWords("New", "York");
    assert "ORD-" + "New" + "York" == "ORD-NewYork";
  }

  /** A two-word city loses its blank: "ORD-" and the words run together. */
  lemma BaseIdOfTwoWords(first: string, second: string)
    requires ' ' !in first && ' ' !in second
    ensures BaseId("", first + " " + second) == "ORD-" + first + second
  {
    RemoveCharAppend(first + " ", second, ' ');
    RemoveCharAppend(first, " ", ' ');
    RemoveCharAbsent(first, ' ');
    RemoveCharAbsent(second, ' ');
    assert RemoveChar(" ", ' ') == [];
  }

  /** The recipient part: the parsed contact name, "User" when empty. */
  function ShipName(name: string): (r: string)
    ensures r != []
    ensures name != [] ==> r == name
    ensures name == [] ==> r == "User"
  {
    if name != [] then name else "User"
  }

  /** The destination part: "city-region" with every blank and comma
      deleted. */
  function ShippingKey(city: string, region: string): (r: string)
    ensures ' ' !in r && ',' !in r
    ensures '-' in r
  {
    RemoveChar(RemoveChar(city + "-" + region, ' '), ',')
  }

  /** The separator between city and region survives the clean-up, so the
      destination part is the cleaned city, "-", the cleaned region. */
  lemma ShippingKeyParts(city: string, region: string)
    ensures ShippingKey(city, region) ==
      RemoveChar(RemoveChar(city, ' '), ',') + "-" + RemoveChar(RemoveChar(region, ' '), ',')
  {
    RemoveCharAppend(city + "-", region, ' ');
    RemoveCharAppend(city, "-", ' ');
    var c := RemoveChar(city, ' ');
    var g := RemoveChar(region, ' ');
    assert RemoveChar("-", ' ') == "-";
    RemoveCharAppend(c + "-", g, ',');
    RemoveCharAppend(c, "-", ',');
    assert RemoveChar("-", ',') == "-";
  }

  /** `key` reads, piece by piece, as `{baseId}-{shipName}-{shippingKey}-`
      followed by the `yyyyMMdd` digits of `date`. */
  predicate IsKeyOf(key: string, baseId: string, shipName: string, shippingKey: string, date: Date) {
    && |key| == |baseId| + |shipName| + |shippingKey| + 11
    && key[..|baseId| + 1] == baseId + "-"
    && key[|baseId| + 1..|baseId| + 1 + |shipName|] == shipName
    && key[|baseId| + 1 + |shipName|..|key| - 9] == "-" + shippingKey
    && KeyDate(key) == Some(date)
  }

  /** `{baseId}-{shipName}-{shippingKey}-{date:yyyyMMdd}`: the parts in
      that order, joined by "-", the date readable back from the end. */
  function UniqueId(baseId: string, shipName: string, shippingKey: string, date: Date): (key: string)
    ensures IsKeyOf(key, baseId, shipName, shippingKey, date)
  {
    var head := baseId + "-";
    var tail := shipName + "-" + shippingKey + "-";
    var digits := FormatYmd(date);
    var key := head + tail + digits;
    assert key[..|head|] == head;
    assert key[|head|..|head| + |shipName|] == tail[..|shipName|] == shipName;
    assert key[|head| + |shipName|..|key| - 9] == tail[|shipName|..|tail| - 1] == "-" + shippingKey;
    assert key == (head + tail) + digits;
    KeyDateAfterDash(head + tail, date);
    key
  }

  /** Any text ending in "-", followed by a date's digits, reads back as
      that date. */
  lemma KeyDateAfterDash(prefix: string, date: Date)
    requires |prefix| > 0 && prefix[|prefix| - 1] == '-'
    ensures KeyDate(prefix + FormatYmd(date)) == Some(date)
  {
    var key := prefix + FormatYmd(date);
    assert key[|key| - 9] == prefix[|prefix| - 1];
    assert key[|key| - 8..] == FormatYmd(date);
    ParseFormat(date);
  }

  /** The reading is complete: a string that reads as the parts and the
      date is the identity built from them. */
  lemma KeyOfIsUniqueId(key: string, baseId: string, shipName: string, shippingKey: string, date: Date)
    requires IsKeyOf(key, baseId, shipName, shippingKey, date)
    ensures key == UniqueId(baseId, shipName, shippingKey, date)
  {
    var n := |key|;
    var i := |baseId| + 1;
    var j := i + |shipName|;
    var digits := key[n - 8..];
    assert ParseYmd(digits) == Some(date);
    FormatParse(digits);
    var tail := key[i..n - 8];
    assert tail == key[i..j] + key[j..n - 9] + [key[n - 9]];
    assert tail == shipName + "-" + shippingKey + "-";
    assert key == key[..i] + tail + digits;
  }

  /** The date an identity ends with: the eight digits after its last
      separator, read as `yyyyMMdd`. */
  function KeyDate(key: string): (d: Option<Date>)
    ensures d.Some? ==> |key| >= 9 && key[|key| - 9] == '-'
  {
    if |key| < 9 || key[|key| - 9] != '-' then None else ParseYmd(key[|key| - 8..])
  }

  /** Equal keys mean equal dates: rows merged under one key share their
      date. */
  lemma SameKeySameDate(b1: string, n1: string, k1: string, d1: Date,
                        b2: string, n2: string, k2: string, d2: Date)
    requires UniqueId(b1, n1, k1, d1) == UniqueId(b2, n2, k2, d2)
    ensures d1 == d2
  {
  }

  /** With the base id and recipient fixed, the identity determines the
      destination part and the date: rows for different destinations or
      days are never merged. */
  lemma SameKeySameDestination(baseId: string, shipName: string, k1: string, d1: Date, k2: string, d2: Date)
    requires UniqueId(baseId, shipName, k1, d1) == UniqueId(baseId, shipName, k2, d2)
    ensures k1 == k2 && d1 == d2
  {
    var key := UniqueId(baseId, shipName, k1, d1);
    assert IsKeyOf(key, baseId, shipName, k1, d1) && IsKeyOf(key, baseId, shipName, k2, d2);
    assert ("-" + k1)[1..] == k1 && ("-" + k2)[1..] == k2;
  }

  /** The parts are joined with "-" but may themselves contain "-", so the
      key does not determine them: an order "A-B" for recipient "C" and an
      order "A" for recipient "B-C" get the same key. */
  lemma KeyPartsCollide(shippingKey: string, date: Date)
    ensures UniqueId("A-B", "C", shippingKey, date) == UniqueId("A", "B-C", shippingKey, date)
  {
  }
}
