/** The search endpoint against the twelve customers the database seeder
    creates (tags and customers numbered in insertion order, as an identity
    column assigns them). */
module SeedExamples {
  import opened Wrappers
  import opened Text
  import opened Wire
  import opened Matcher

  const VipTag := Tag(1, "VIP")
  const PremiumTag := Tag(2, "Premium")
  const CorporateTag := Tag(3, "Corporate")
  const ResidentialTag := Tag(4, "Residential")
  const BusinessTag := Tag(5, "Business")
  const NewCustomerTag := Tag(6, "New Customer")
  const LongTermTag := Tag(7, "Long Term")
  const HighVolumeTag := Tag(8, "High Volume")
  const PrioritySupportTag := Tag(9, "Priority Support")
  const InternationalTag := Tag(10, "International")

  const Microsoft := Customer(3, "Microsoft UK Ltd", "Thames Valley Park, Reading", "RG6 1WG",
                              [CorporateTag, HighVolumeTag, PrioritySupportTag])
  const Amazon := Customer(6, "Amazon Web Services", "Principal Place, London", "EC2A 2FA",
                           [CorporateTag, InternationalTag, PrioritySupportTag])

  const SeedStore := [
    Customer(1, "John Smith", "123 High Street, London", "SW1A 1AA", [VipTag, ResidentialTag]),
    Customer(2, "Sarah Johnson", "45 Victoria Road, Manchester", "M1 2AB", [PremiumTag, BusinessTag]),
    Microsoft,
    Customer(4, "Emily Davis", "78 Queen Street, Birmingham", "B1 3CD", [NewCustomerTag, ResidentialTag]),
    Customer(5, "Robert Wilson", "92 King's Road, Edinburgh", "EH1 4EF", [LongTermTag, VipTag]),
    Amazon,
    Customer(7, "Lisa Thompson", "156 Castle Street, Cardiff", "CF10 1BH", [PremiumTag, BusinessTag]),
    Customer(8, "David Brown", "23 Market Square, Leeds", "LS1 5GH", [ResidentialTag, LongTermTag]),
    Customer(9, "TechStart Solutions", "89 Innovation Drive, Cambridge", "CB4 0WS",
             [BusinessTag, NewCustomerTag, HighVolumeTag]),
    Customer(10, "Jennifer Martinez", "67 Elm Grove, Brighton", "BN1 7IJ", [VipTag, InternationalTag]),
    Customer(11, "GlobalTech Industries", "Central Business Park, Glasgow", "G2 8KL",
             [CorporateTag, LongTermTag, PrioritySupportTag]),
    Customer(12, "Michael O'Connor", "34 Phoenix Street, Belfast", "BT1 2MN", [ResidentialTag, PremiumTag])
  ]

  /** A hit at a known position, letter by letter after case folding, is a
      match. */
  lemma LikeAt(field: string, query: string, i: int)
    requires 0 <= i <= |field| - |query|
    requires forall k :: 0 <= k < |query| ==> Lower(field[i + k]) == Lower(query[k])
    ensures Like(field, query)
  {
    var hay, needle := LowerString(field), LowerString(query);
    assert hay[i..i + |needle|] == needle;
    assert OccursAt(hay, needle, i);
    ContainsIff(hay, needle);
  }

  /** Every letter of a matching query, case folded, occurs in the folded
      field. */
  lemma LikeNeedsChar(field: string, query: string, k: int)
    requires 0 <= k < |query|
    ensures Like(field, query) ==> Lower(query[k]) in LowerString(field)
  {
    var hay, needle := LowerString(field), LowerString(query);
    ContainsIff(hay, needle);
    if Like(field, query) {
      var i :| OccursAt(hay, needle, i);
      assert hay[i..i + |needle|][k] == needle[k];
    }
  }

  /** A stored customer that matches is listed. */
  lemma Listed(store: seq<Customer>, query: string, c: Customer)
    requires c in store && IsMatch(c, query)
    ensures c in Where(store, query)
  {
  }

  lemma MicrosoftIsStored()
    ensures Microsoft in SeedStore
  {
    assert SeedStore[2] == Microsoft;
  }

  /** A query holding a letter that the field lacks, after case folding,
      does not match it. */
  lemma NotLike(field: string, query: string, k: int)
    requires 0 <= k < |query| && Lower(query[k]) !in LowerString(field)
    ensures !Like(field, query)
  {
    LikeNeedsChar(field, query, k);
  }

  lemma MicrosoftLetters()
    ensures 'p' !in LowerString(Microsoft.name)
    ensures 'c' !in LowerString(Microsoft.address) && 'c' !in LowerString(Microsoft.postcode)
  {
  }

  lemma MicrosoftDigits()
    ensures '2' !in LowerString(Microsoft.name) && '2' !in LowerString(Microsoft.address)
    ensures '2' !in LowerString(Microsoft.postcode)
    ensures forall i :: 0 <= i < |Microsoft.tags| ==> '2' !in LowerString(Microsoft.tags[i].name)
  {
  }

  /** Only the Corporate tag of Microsoft contains "Corp": its name lacks a
      `p`, its address and postcode a `c`. */
  lemma CorpHitsMicrosoftTagOnly()
    ensures !Like(Microsoft.name, "Corp") && !Like(Microsoft.address, "Corp") && !Like(Microsoft.postcode, "Corp")
  {
    MicrosoftLetters();
    NotLike(Microsoft.name, "Corp", 3);
    NotLike(Microsoft.address, "Corp", 0);
    NotLike(Microsoft.postcode, "Corp", 0);
  }

  lemma CorporateTagMatchesCorp()
    ensures IsMatch(Microsoft, "Corp")
  {
    LikeAt(CorporateTag.name, "Corp", 0);
    assert Like(Microsoft.tags[0].name, "Corp");
  }

  /** "Corp" finds Microsoft through its Corporate tag alone. */
  lemma CorpFindsMicrosoftByTag()
    ensures !Like(Microsoft.name, "Corp") && !Like(Microsoft.address, "Corp") && !Like(Microsoft.postcode, "Corp")
    ensures Microsoft in Where(SeedStore, "Corp")
  {
    CorpHitsMicrosoftTagOnly();
    CorporateTagMatchesCorp();
    MicrosoftIsStored();
    Listed(SeedStore, "Corp", Microsoft);
  }

  /** "Reading" finds Microsoft through its address. */
  lemma ReadingFindsMicrosoftByAddress()
    ensures Like(Microsoft.address, "Reading")
    ensures Microsoft in Where(SeedStore, "Reading")
  {
    LikeAt(Microsoft.address, "Reading", 20);
    MicrosoftIsStored();
    Listed(SeedStore, "Reading", Microsoft);
  }

  /** No field of Microsoft holds the digit 2, so "EC2A" does not match it. */
  lemma Ec2aMissesMicrosoft()
    ensures !IsMatch(Microsoft, "EC2A")
  {
    MicrosoftDigits();
    NotLike(Microsoft.name, "EC2A", 2);
    NotLike(Microsoft.address, "EC2A", 2);
    NotLike(Microsoft.postcode, "EC2A", 2);
    forall i | 0 <= i < |Microsoft.tags| ensures !Like(Microsoft.tags[i].name, "EC2A") {
      NotLike(Microsoft.tags[i].name, "EC2A", 2);
    }
  }

  /** "EC2A" finds Amazon by its postcode and does not find Microsoft, whose
      postcode is RG6 1WG. */
  lemma Ec2aFindsAmazonNotMicrosoft()
    ensures Amazon in Where(SeedStore, "EC2A")
    ensures Microsoft !in Where(SeedStore, "EC2A")
  {
    LikeAt(Amazon.postcode, "EC2A", 0);
    assert IsMatch(Amazon, "EC2A");
    assert SeedStore[5] == Amazon;
    Listed(SeedStore, "EC2A", Amazon);
    Ec2aMissesMicrosoft();
  }

  /** An address holding ", " at `i` makes the customer match ", ". */
  lemma CommaInAddress(c: Customer, i: int)
    requires 0 <= i <= |c.address| - 2 && c.address[i] == ',' && c.address[i + 1] == ' '
    ensures IsMatch(c, ", ")
  {
    LikeAt(c.address, ", ", i);
  }

  /** The position of ", " in each seeded address. */
  lemma SeedMatchesComma(j: int)
    requires 0 <= j < |SeedStore|
    ensures IsMatch(SeedStore[j], ", ")
  {
    var s := SeedStore;
    if j == 0 { CommaInAddress(s[0], 15); }
    else if j == 1 { CommaInAddress(s[1], 16); }
    else if j == 2 { CommaInAddress(s[2], 18); }
    else if j == 3 { CommaInAddress(s[3], 15); }
    else if j == 4 { CommaInAddress(s[4], 14); }
    else if j == 5 { CommaInAddress(s[5], 15); }
    else if j == 6 { CommaInAddress(s[6], 17); }
    else if j == 7 { CommaInAddress(s[7], 16); }
    else if j == 8 { CommaInAddress(s[8], 19); }
    else if j == 9 { CommaInAddress(s[9], 12); }
    else if j == 10 { CommaInAddress(s[10], 21); }
    else { CommaInAddress(s[11], 17); }
  }

  /** Every seeded address has the form "street, town". */
  lemma EverySeedMatchesComma()
    ensures forall j :: 0 <= j < |SeedStore| ==> IsMatch(SeedStore[j], ", ")
  {
    forall j | 0 <= j < |SeedStore| ensures IsMatch(SeedStore[j], ", ") {
      SeedMatchesComma(j);
    }
  }

  /** The result of the search on a store whose every customer matches. */
  lemma SearchAllMatching(store: seq<Customer>, query: string, r: SearchResponse)
    requires forall j :: 0 <= j < |store| ==> IsMatch(store[j], query)
    requires !IsShortQuery(Some(query), DefaultConfig.minSearchChars)
    requires r == Search(store, Some(query), None, DefaultConfig)
    ensures r.totalCount == |store|
    ensures r.customers == ProjectAll(store[..if |store| < 10 then |store| else 10])
  {
    WhereAllMatch(store, query);
    var n := if |store| < 10 then |store| else 10;
    assert r.customers == ProjectAll(store)[..n];
  }

  /** ", " occurs in every seeded address, so all twelve customers match: the
      count is 12 while the default ceiling of 10 cuts the page to the first
      ten customers in store order. */
  lemma BroadQueryIsTruncated()
    ensures var r := Search(SeedStore, Some(", "), None, DefaultConfig);
            r.totalCount == 12 && r.customers == ProjectAll(SeedStore[..10])
  {
    EverySeedMatchesComma();
    assert !IsBlank(", ") by { assert !IsDotNetWhiteSpace(", "[0]); }
    SearchAllMatching(SeedStore, ", ", Search(SeedStore, Some(", "), None, DefaultConfig));
  }
}
