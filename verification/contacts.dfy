/** `ParseContactInfo` (Program.cs): a free-text contact such as
    "Jane Doe, 123 Main St, Springfield, IL, 62704" read as name, street,
    city and, second to last, region. Malformed contacts fall back to an
    all-"Unknown" record; parsing never fails. */
module Contacts {
  import opened Text
  import opened Models

  const Unknown: ContactInfo := ContactInfo("Unknown", "Unknown", "Unknown", "Unknown")

  /** Trims every piece. */
  function TrimAll(parts: seq<string>): (ps: seq<string>)
    ensures |ps| == |parts|
    ensures forall i :: 0 <= i < |ps| ==> ps[i] == Trim(parts[i])
  {
    seq(|parts|, i requires 0 <= i < |parts| => Trim(parts[i]))
  }

  /** The comma separated pieces of a contact, each trimmed. */
  function Pieces(contact: string): (ps: seq<string>)
    ensures |ps| == Count(contact, ',') + 1
  {
    TrimAll(Split(contact, ','))
  }

  /** The record read from the trimmed pieces: name, "street, city", city
      and the second-to-last piece as region when there are at least four
      pieces, the fallback record otherwise. */
  function FromPieces(ps: seq<string>): (c: ContactInfo)
    ensures c == Unknown <==> |ps| < 4
    ensures |ps| >= 4 ==> c.city == ps[2]
    ensures |ps| >= 4 ==> c.name == ps[0] && c.address == ps[1] + ", " + c.city && c.region == ps[|ps| - 2]
  {
    assert |ps| >= 4 ==> ',' in (ps[1] + ", " + ps[2]) by {
      if |ps| >= 4 { assert (ps[1] + ", " + ps[2])[|ps[1]|] == ','; }
    }
    if |ps| >= 4 then ContactInfo(ps[0], ps[1] + ", " + ps[2], ps[2], ps[|ps| - 2])
    else Unknown
  }

  /** The parser first asks for a comma; that test never changes the
      outcome, since a comma-free contact is a single piece. Fewer than
      three commas always give the fallback record. */
  function ParseContactInfo(contact: string): (c: ContactInfo)
    ensures c == FromPieces(Pieces(contact))
    ensures Count(contact, ',') < 3 ==> c == Unknown
  {
    if ',' in contact then
      FromPieces(Pieces(contact))
    else
      assert Count(contact, ',') == 0 by { CountZero(contact, ','); }
      Unknown
  }

  /** A contact without a comma is never parsed: all four fields are
      "Unknown". */
  lemma NoCommaIsUnknown(contact: string)
    requires ',' !in contact
    ensures ParseContactInfo(contact) == Unknown
  {
    CountZero(contact, ',');
  }

  /** The contact has the given four fields. */
  predicate HasFields(c: ContactInfo, name: string, address: string, city: string, region: string) {
    c.name == name && c.address == address && c.city == city && c.region == region
  }

  /** The round trip: joining at least four comma-free pieces with commas
      and parsing the result gives back the trimmed pieces in their roles,
      whatever white space surrounds them. */
  lemma ParseJoined(pieces: seq<string>)
    requires |pieces| >= 4
    requires forall i :: 0 <= i < |pieces| ==> ',' !in pieces[i]
    ensures HasFields(ParseContactInfo(Join(pieces, ',')),
                      Trim(pieces[0]), Trim(pieces[1]) + ", " + Trim(pieces[2]),
                      Trim(pieces[2]), Trim(pieces[|pieces| - 2]))
  {
    var s := Join(pieces, ',');
    SplitJoin(pieces, ',');
    assert Pieces(s) == TrimAll(pieces);
    FromMapped(TrimAll(pieces), pieces, Trim);
  }

  /** The record read from pieces that are images of `parts` under `f`
      takes its fields from the images of the parts in those roles. */
  lemma FromMapped(ps: seq<string>, parts: seq<string>, f: string -> string)
    requires |ps| == |parts| >= 4
    requires forall i :: 0 <= i < |ps| ==> ps[i] == f(parts[i])
    ensures HasFields(FromPieces(ps),
                      f(parts[0]), f(parts[1]) + ", " + f(parts[2]),
                      f(parts[2]), f(parts[|parts| - 2]))
  {
    var c := FromPieces(ps);
    assert c.address == f(parts[1]) + ", " + f(parts[2]) by {
      assert ps[1] == f(parts[1]) && ps[2] == f(parts[2]);
    }
    assert c.region == f(parts[|parts| - 2]);
  }

  /** A contact written in the usual "name, street, city, region, zip"
      shape, one blank after each comma, reads back as those fields; e.g.
      "Jane Doe, 123 Main St, Springfield, IL, 62704" gives name "Jane Doe",
      address "123 Main St, Springfield", city "Springfield", region "IL". */
  lemma ParseUsualShape(name: string, street: string, city: string, region: string, zip: string)
    requires Trimmed(name) && Trimmed(street) && Trimmed(city) && Trimmed(region)
    requires ',' !in name && ',' !in street && ',' !in city && ',' !in region && ',' !in zip
    ensures HasFields(ParseContactInfo(Join([name, " " + street, " " + city, " " + region, " " + zip], ',')),
                      name, street + ", " + city, city, region)
  {
    var pieces := [name, " " + street, " " + city, " " + region, " " + zip];
    assert forall i :: 0 <= i < |pieces| ==> ',' !in pieces[i];
    ParseJoined(pieces);
    TrimUntouched(name);
    TrimLeadingBlank(street);
    TrimLeadingBlank(city);
    TrimLeadingBlank(region);
  }

  lemma TrimUntouched(x: string)
    requires Trimmed(x)
    ensures Trim(x) == x
  {
    TrimPadded([], x, []);
    assert [] + x + [] == x;
  }

  lemma TrimLeadingBlank(x: string)
    requires Trimmed(x)
    ensures Trim(" " + x) == x
  {
    TrimPadded(" ", x, []);
    assert " " + x + [] == " " + x;
  }
}
