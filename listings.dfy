/** The listing flattener of process_listings.js: the `Results` shape check
    and the per-listing mapping from the search payload to report records.

    JavaScript's `undefined` is `None`, and so is a `null` element of
    `Individual`. A field read through `?.` from an
    absent parent is absent. `x || d` yields `d` when `x` is falsy; for the
    string fields read here that means absent or the empty string. */
module Listings {
  import opened Wrappers
  import opened Text

  const RealtorBaseUrl: string := "https://www.realtor.ca"
  const NotAvailable: string := "N/A"
  const AddressSeparator: string := " | "
  const AddressSeparatorReplacement: string := ", "

  // ---------------------------------------------------------------------------
  // Input: the parts of the search payload that the flattener reads
  // ---------------------------------------------------------------------------

  datatype Address = Address(addressText: Option<string>)

  datatype Phone = Phone(phoneType: Option<string>, areaCode: Option<string>, phoneNumber: Option<string>)

  datatype Website = Website(websiteTypeId: Option<string>, website: Option<string>)

  datatype Email = Email(contactId: Option<string>)

  datatype Organization = Organization(
    name: Option<string>,
    address: Option<Address>,
    phones: Option<seq<Phone>>,
    websites: Option<seq<Website>>,
    emails: Option<seq<Email>>)

  datatype Individual = Individual(
    name: Option<string>,
    phones: Option<seq<Phone>>,
    websites: Option<seq<Website>>,
    organization: Option<Organization>)

  datatype Property = Property(
    address: Option<Address>,
    ownershipType: Option<string>,
    price: Option<string>,
    priceUnformattedValue: Option<string>)

  datatype Building = Building(buildingType: Option<string>, sizeInterior: Option<string>)

  datatype Listing = Listing(
    id: Option<string>,
    mlsNumber: Option<string>,
    property: Option<Property>,
    relativeDetailsUrl: Option<string>,
    building: Option<Building>,
    timeOnRealtor: Option<string>,
    individual: Option<seq<Option<Individual>>>)

  /** A parsed payload: either a value JavaScript treats as false (`null`,
      `false`, `0`, `""`) or any other value, with its `Results` array when
      it has one. */
  datatype Payload = FalsyValue | Value(results: Option<seq<Listing>>)

  // ---------------------------------------------------------------------------
  // Output: one flattened record per listing
  // ---------------------------------------------------------------------------

  /** `type` is left out of the serialised record when `PhoneType` is absent. */
  datatype PhoneEntry = PhoneEntry(phoneType: Option<string>, number: string)

  datatype ListingRecord = ListingRecord(
    realtorCaListingId: string,
    mlsNumber: string,
    listingFullAddress: string,
    listingLink: string,
    ownershipType: string,
    priceFormatted: string,
    priceUnformatted: Option<string>,   // None is `null`
    buildingType: string,
    sizeInterior: string,
    timeOnRealtor: string,
    realtorName: string,
    realtorPhones: seq<PhoneEntry>,
    realtorWebsites: seq<Website>,
    brokerageName: string,
    brokerageAddress: string,
    brokeragePhones: seq<PhoneEntry>,
    brokerageWebsites: seq<Website>,
    brokerageEmails: seq<Email>)

  // ---------------------------------------------------------------------------
  // JavaScript value semantics
  // ---------------------------------------------------------------------------

  /** A string field JavaScript treats as true: present and non-empty. */
  predicate Truthy(v: Option<string>)
  {
    v.Some? && v.value != ""
  }

  /** `v || fallback` on a string field. */
  function OrElse(v: Option<string>, fallback: string): string
  {
    if Truthy(v) then v.value else fallback
  }

  /** `v || null` on a string field. */
  function OrNull(v: Option<string>): Option<string>
  {
    if Truthy(v) then v else None
  }

  /** `v || []` on an array field: an array, even an empty one, is truthy. */
  function OrEmpty<T>(v: Option<seq<T>>): seq<T>
  {
    if v.Some? then v.value else []
  }

  /** How a template literal renders a field: an absent one becomes "undefined". */
  function Interpolate(v: Option<string>): string
  {
    if v.Some? then v.value else "undefined"
  }

  // ---------------------------------------------------------------------------
  // Field derivations
  // ---------------------------------------------------------------------------

  /** `Individual[0]` when `Individual` is a non-empty array, else `null`;
      a `null` first element is `null` too. */
  function PrimaryRealtor(listing: Listing): Option<Individual>
  {
    if listing.individual.Some? && |listing.individual.value| > 0
    then listing.individual.value[0]
    else None
  }

  /** `primaryRealtorInfo?.Organization`. */
  function Brokerage(listing: Listing): Option<Organization>
  {
    match PrimaryRealtor(listing)
    case None => None
    case Some(r) => r.organization
  }

  /** `address?.AddressText?.replace(" | ", ", ") || 'N/A'`. */
  function FormatAddress(address: Option<Address>): string
  {
    if address.None? || address.value.addressText.None? then NotAvailable
    else OrElse(Some(ReplaceFirst(address.value.addressText.value, AddressSeparator, AddressSeparatorReplacement)), NotAvailable)
  }

  /** `relativeLink ? REALTOR_BASE_URL + relativeLink : 'N/A'`. */
  function ListingLink(relative: Option<string>): string
  {
    if Truthy(relative) then RealtorBaseUrl + relative.value else NotAvailable
  }

  /** One phone as `{type: PhoneType, number: AreaCode-PhoneNumber}`. */
  function FormatPhone(phone: Phone): PhoneEntry
  {
    PhoneEntry(phone.phoneType, Interpolate(phone.areaCode) + "-" + Interpolate(phone.phoneNumber))
  }

  /** `phones.map(FormatPhone)`. */
  function FormatPhones(phones: seq<Phone>): seq<PhoneEntry>
  {
    if phones == [] then [] else [FormatPhone(phones[0])] + FormatPhones(phones[1..])
  }

  /** `owner?.Phones?.map(FormatPhone) || []`. */
  function PhoneList(phones: Option<seq<Phone>>): seq<PhoneEntry>
  {
    if phones.Some? then FormatPhones(phones.value) else []
  }

  /** The record pushed for one element of `Results`. Every text field has
      a fallback, so none of them is ever empty, and the raw price is either
      `null` or non-empty. */
  function FlattenListing(listing: Listing): (r: ListingRecord)
    ensures r.realtorCaListingId != "" && r.mlsNumber != "" && r.listingFullAddress != ""
    ensures r.listingLink != "" && r.ownershipType != "" && r.priceFormatted != ""
    ensures r.buildingType != "" && r.sizeInterior != "" && r.timeOnRealtor != ""
    ensures r.realtorName != "" && r.brokerageName != "" && r.brokerageAddress != ""
    ensures r.priceUnformatted.Some? ==> r.priceUnformatted.value != ""
  {
    var realtor := PrimaryRealtor(listing);
    var org := Brokerage(listing);
    var prop := listing.property;
    var bldg := listing.building;
    ListingRecord(
      realtorCaListingId := OrElse(listing.id, NotAvailable),
      mlsNumber := OrElse(listing.mlsNumber, NotAvailable),
      listingFullAddress := FormatAddress(if prop.Some? then prop.value.address else None),
      listingLink := ListingLink(listing.relativeDetailsUrl),
      ownershipType := OrElse(if prop.Some? then prop.value.ownershipType else None, NotAvailable),
      priceFormatted := OrElse(if prop.Some? then prop.value.price else None, NotAvailable),
      priceUnformatted := OrNull(if prop.Some? then prop.value.priceUnformattedValue else None),
      buildingType := OrElse(if bldg.Some? then bldg.value.buildingType else None, NotAvailable),
      sizeInterior := OrElse(if bldg.Some? then bldg.value.sizeInterior else None, NotAvailable),
      timeOnRealtor := OrElse(listing.timeOnRealtor, NotAvailable),
      realtorName := OrElse(if realtor.Some? then realtor.value.name else None, NotAvailable),
      realtorPhones := PhoneList(if realtor.Some? then realtor.value.phones else None),
      realtorWebsites := OrEmpty(if realtor.Some? then realtor.value.websites else None),
      brokerageName := OrElse(if org.Some? then org.value.name else None, NotAvailable),
      brokerageAddress := FormatAddress(if org.Some? then org.value.address else None),
      brokeragePhones := PhoneList(if org.Some? then org.value.phones else None),
      brokerageWebsites := OrEmpty(if org.Some? then org.value.websites else None),
      brokerageEmails := OrEmpty(if org.Some? then org.value.emails else None))
  }

  // ---------------------------------------------------------------------------
  // The extraction loop
  // ---------------------------------------------------------------------------

  /** The shape check and the loop that pushes one record per listing.
      `None` is the early return on a payload without a `Results` array. */
  method ExtractListingInfo(data: Payload) returns (records: Option<seq<ListingRecord>>)
    ensures records.None? <==> data.FalsyValue? || data.results.None?
    ensures records.Some? ==> |records.value| == |data.results.value|
    ensures records.Some? ==> forall i :: 0 <= i < |records.value| ==>
              records.value[i] == FlattenListing(data.results.value[i])
  {
    if data.FalsyValue? || data.results.None? {
      return None;
    }
    var listings := data.results.value;
    var extracted: seq<ListingRecord> := [];
    for i := 0 to |listings|
      invariant |extracted| == i
      invariant forall j :: 0 <= j < i ==> extracted[j] == FlattenListing(listings[j])
    {
      extracted := extracted + [FlattenListing(listings[i])];
    }
    return Some(extracted);
  }

  // ---------------------------------------------------------------------------
  // Properties of the mapping
  // ---------------------------------------------------------------------------

  /** Each phone maps to exactly one entry, in order, carrying its type and
      the number `AreaCode-PhoneNumber`. */
  lemma {:induction false} FormatPhonesPointwise(phones: seq<Phone>)
    ensures |FormatPhones(phones)| == |phones|
    ensures forall i :: 0 <= i < |phones| ==>
              FormatPhones(phones)[i].phoneType == phones[i].phoneType &&
              FormatPhones(phones)[i].number == Interpolate(phones[i].areaCode) + "-" + Interpolate(phones[i].phoneNumber)
  {
    if phones != [] {
      FormatPhonesPointwise(phones[1..]);
      forall i | 0 <= i < |phones|
        ensures FormatPhones(phones)[i] == FormatPhone(phones[i])
      {
        if i > 0 {
          assert FormatPhones(phones)[i] == FormatPhones(phones[1..])[i - 1];
        }
      }
    }
  }

  /** With both parts present the number is the area code, a dash and the local number. */
  lemma PhoneNumberFormat(phone: Phone, area: string, local: string)
    requires phone.areaCode == Some(area) && phone.phoneNumber == Some(local)
    ensures FormatPhone(phone).number == area + "-" + local
    ensures FormatPhone(phone).number[..|area|] == area
    ensures FormatPhone(phone).number[|area|] == '-'
    ensures FormatPhone(phone).number[|area| + 1..] == local
  {
  }

  /** A listing without a non-empty `Individual` array, or whose first
      `Individual` is `null`, gets the "not available"
      marker for every realtor and brokerage name or address, and empty
      phone, website and email lists. */
  lemma NoRealtorDefaults(listing: Listing)
    requires listing.individual.None? || listing.individual.value == [] || listing.individual.value[0].None?
    ensures FlattenListing(listing).realtorName == NotAvailable
    ensures FlattenListing(listing).realtorPhones == [] && FlattenListing(listing).realtorWebsites == []
    ensures FlattenListing(listing).brokerageName == NotAvailable
    ensures FlattenListing(listing).brokerageAddress == NotAvailable
    ensures FlattenListing(listing).brokeragePhones == [] && FlattenListing(listing).brokerageWebsites == []
    ensures FlattenListing(listing).brokerageEmails == []
  {
  }

  /** The realtor and brokerage fields come from the first element of
      `Individual` only: dropping the others changes no field, the realtor
      fields are that element's and the brokerage fields its organization's. */
  lemma PrimaryRealtorIsFirst(listing: Listing, first: Option<Individual>, rest: seq<Option<Individual>>)
    requires listing.individual == Some([first] + rest)
    ensures FlattenListing(listing) == FlattenListing(listing.(individual := Some([first])))
    ensures first.Some? ==>
              && FlattenListing(listing).realtorName == OrElse(first.value.name, NotAvailable)
              && FlattenListing(listing).realtorPhones == PhoneList(first.value.phones)
              && FlattenListing(listing).realtorWebsites == OrEmpty(first.value.websites)
    ensures first.Some? && first.value.organization.Some? ==>
              var org := first.value.organization.value;
              && FlattenListing(listing).brokerageName == OrElse(org.name, NotAvailable)
              && FlattenListing(listing).brokerageAddress == FormatAddress(org.address)
              && FlattenListing(listing).brokeragePhones == PhoneList(org.phones)
              && FlattenListing(listing).brokerageWebsites == OrEmpty(org.websites)
              && FlattenListing(listing).brokerageEmails == OrEmpty(org.emails)
  {
  }

  /** The address field: "N/A" when the text is absent or empty, otherwise
      the text with its first " | " (and only that one) turned into ", ". */
  lemma AddressFormatting(address: Option<Address>)
    ensures address.None? || !Truthy(address.value.addressText) ==> FormatAddress(address) == NotAvailable
    ensures address.Some? && Truthy(address.value.addressText) ==>
              FormatAddress(address) == ReplaceFirst(address.value.addressText.value, " | ", ", ")
  {
    if address.Some? && address.value.addressText.Some? {
      ReplaceFirstEmpty(address.value.addressText.value, AddressSeparator, AddressSeparatorReplacement);
    }
  }

  /** The link is the base URL followed by the relative path when that path is
      non-empty, and "N/A" otherwise; a built link always starts with the base. */
  lemma LinkFormatting(listing: Listing)
    ensures Truthy(listing.relativeDetailsUrl) ==>
              FlattenListing(listing).listingLink == RealtorBaseUrl + listing.relativeDetailsUrl.value
    ensures Truthy(listing.relativeDetailsUrl) ==>
              FlattenListing(listing).listingLink[..|RealtorBaseUrl|] == RealtorBaseUrl
    ensures !Truthy(listing.relativeDetailsUrl) ==> FlattenListing(listing).listingLink == NotAvailable
  {
  }

  /** Scalar fields fall back to "N/A" when absent or empty, except the raw
      price, which falls back to `null`; present values pass through. */
  lemma ScalarDefaults(listing: Listing)
    ensures FlattenListing(listing).realtorCaListingId == (if Truthy(listing.id) then listing.id.value else NotAvailable)
    ensures FlattenListing(listing).mlsNumber == (if Truthy(listing.mlsNumber) then listing.mlsNumber.value else NotAvailable)
    ensures FlattenListing(listing).timeOnRealtor == (if Truthy(listing.timeOnRealtor) then listing.timeOnRealtor.value else NotAvailable)
    ensures listing.property.None? ==>
              FlattenListing(listing).ownershipType == NotAvailable &&
              FlattenListing(listing).priceFormatted == NotAvailable &&
              FlattenListing(listing).priceUnformatted.None? &&
              FlattenListing(listing).listingFullAddress == NotAvailable
    ensures listing.building.None? ==>
              FlattenListing(listing).buildingType == NotAvailable &&
              FlattenListing(listing).sizeInterior == NotAvailable
    ensures FlattenListing(listing).priceUnformatted.Some? <==>
              listing.property.Some? && Truthy(listing.property.value.priceUnformattedValue)
    ensures listing.property.Some? ==>
              var p := listing.property.value;
              && (Truthy(p.ownershipType) ==> FlattenListing(listing).ownershipType == p.ownershipType.value)
              && (!Truthy(p.ownershipType) ==> FlattenListing(listing).ownershipType == NotAvailable)
              && (Truthy(p.price) ==> FlattenListing(listing).priceFormatted == p.price.value)
              && (!Truthy(p.price) ==> FlattenListing(listing).priceFormatted == NotAvailable)
              && (Truthy(p.priceUnformattedValue) ==>
                    FlattenListing(listing).priceUnformatted == p.priceUnformattedValue)
    ensures listing.building.Some? ==>
              var b := listing.building.value;
              && (Truthy(b.buildingType) ==> FlattenListing(listing).buildingType == b.buildingType.value)
              && (!Truthy(b.buildingType) ==> FlattenListing(listing).buildingType == NotAvailable)
              && (Truthy(b.sizeInterior) ==> FlattenListing(listing).sizeInterior == b.sizeInterior.value)
              && (!Truthy(b.sizeInterior) ==> FlattenListing(listing).sizeInterior == NotAvailable)
  {
  }
}
