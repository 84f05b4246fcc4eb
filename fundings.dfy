/**
 * The funding entity and the conversion of a creation request into one
 * (`FundingCreateRequestDto.toEntity`).
 *
 * Dates (`LocalDate`) are day numbers. The entity's generated id is not a field here:
 * the repository stores fundings under their id.
 */
module Fundings {
  import opened Results
  import opened JavaLang

  datatype FundingStatus = Active | Finished

  /**
   * The `Funding` entity. `user` is the owner's id: the conversion leaves it unset and
   * `saveToDatabase` sets it (`funding.setUser`). `imageFile` is never set by the modelled
   * operations.
   */
  datatype Funding = Funding(
    itemLink: string,
    itemImage: string,
    itemName: string,
    title: string,
    content: string,
    currentAmount: int,
    targetAmount: int,
    publicFlag: bool,
    endDate: int,
    status: FundingStatus,
    imageFile: Option<string>,
    user: Option<nat>)

  /** The product link and image taken from the product page. */
  datatype FundingItem = FundingItem(itemLink: string, itemImage: string)

  /** The creation request as the client sends it; `targetAmount` is text such as "10,000". */
  datatype FundingCreateRequest = FundingCreateRequest(
    itemName: string,
    showName: string,
    title: string,
    content: string,
    targetAmount: string,
    publicFlag: bool,
    endDate: int)

  /** The text `Integer.parseInt` is given: the target amount with every comma removed. */
  function StrippedAmount(request: FundingCreateRequest): string {
    RemoveChar(request.targetAmount, ',')
  }

  /**
   * `toEntity(fundingItem, status)`: the product fields from the item, the request's own
   * fields copied, nothing collected yet, the status as given, and the target amount
   * parsed from the comma-free text; a text that does not parse is NumberFormatException.
   * `showName` has no counterpart in the entity and is dropped.
   */
  function ToEntity(request: FundingCreateRequest, item: FundingItem, status: FundingStatus): (r: Result<Funding>)
    ensures r.Err? ==> r.error == NumberFormat
    ensures r.Ok? <==> ParseInt(StrippedAmount(request)).Ok?
    ensures r.Ok? ==>
      && r.value.itemLink == item.itemLink && r.value.itemImage == item.itemImage
      && r.value.itemName == request.itemName && r.value.title == request.title
      && r.value.content == request.content && r.value.publicFlag == request.publicFlag
      && r.value.endDate == request.endDate
      && r.value.currentAmount == 0 && r.value.status == status
      && r.value.imageFile == None && r.value.user == None
      && INT_MIN <= r.value.targetAmount <= INT_MAX
  {
    match ParseInt(StrippedAmount(request))
    case Err(e) => Err(e)
    case Ok(amount) =>
      Ok(Funding(item.itemLink, item.itemImage, request.itemName, request.title, request.content,
                 0, amount, request.publicFlag, request.endDate, status, None, None))
  }

  /** Commas are dropped wherever they stand, so "1,,0" converts like "10". */
  lemma CommaIgnored(request: FundingCreateRequest, item: FundingItem, status: FundingStatus, a: string, b: string)
    requires request.targetAmount == a + "," + b
    ensures ToEntity(request, item, status) == ToEntity(request.(targetAmount := a + b), item, status)
  {
    assert request.targetAmount == a + ("," + b);
    RemoveCharAppend(a, "," + b, ',');
    RemoveCharAppend(",", b, ',');
    assert RemoveChar(",", ',') == [];
    RemoveCharAppend(a, b, ',');
    assert StrippedAmount(request) == StrippedAmount(request.(targetAmount := a + b));
  }

  /** A comma-free run of digits within the 32-bit range becomes exactly its decimal value. */
  lemma DigitsConvert(request: FundingCreateRequest, item: FundingItem, status: FundingStatus)
    requires StrippedAmount(request) != [] && AllDigits(StrippedAmount(request))
    requires DecimalValue(StrippedAmount(request)) <= INT_MAX
    ensures ToEntity(request, item, status).Ok?
    ensures ToEntity(request, item, status).value.targetAmount == DecimalValue(StrippedAmount(request))
  {
  }

  /** A leading minus sign is accepted, so a negative target passes the conversion. */
  lemma NegativeConverts(request: FundingCreateRequest, item: FundingItem, status: FundingStatus)
    requires var s := StrippedAmount(request);
      |s| >= 2 && s[0] == '-' && AllDigits(s[1..]) && DecimalValue(s[1..]) <= -INT_MIN
    ensures ToEntity(request, item, status).Ok?
    ensures ToEntity(request, item, status).value.targetAmount == -(DecimalValue(StrippedAmount(request)[1..]) as int)
  {
  }

  /** A leading plus sign is accepted and ignored. */
  lemma PlusConverts(request: FundingCreateRequest, item: FundingItem, status: FundingStatus)
    requires var s := StrippedAmount(request);
      |s| >= 2 && s[0] == '+' && AllDigits(s[1..]) && DecimalValue(s[1..]) <= INT_MAX
    ensures ToEntity(request, item, status).Ok?
    ensures ToEntity(request, item, status).value.targetAmount == DecimalValue(StrippedAmount(request)[1..])
  {
  }

  /** A sign with no digit after it is rejected. */
  lemma SignOnlyRejected(request: FundingCreateRequest, item: FundingItem, status: FundingStatus)
    requires StrippedAmount(request) == "-" || StrippedAmount(request) == "+"
    ensures ToEntity(request, item, status) == Err(NumberFormat)
  {
    assert StrippedAmount(request)[1..] == [];
  }

  /** ",-," is a bare minus sign once the commas are gone, and is rejected. */
  lemma CommaWrappedSignExample(request: FundingCreateRequest, item: FundingItem, status: FundingStatus)
    requires request.targetAmount == ",-,"
    ensures ToEntity(request, item, status) == Err(NumberFormat)
  {
    assert ","[1..] == [] && RemoveChar(",", ',') == [];
    assert "-,"[1..] == "," && RemoveChar("-,", ',') == "-";
    assert ",-,"[1..] == "-," && RemoveChar(",-,", ',') == "-";
    SignOnlyRejected(request, item, status);
  }

  /** Text with nothing but commas (or nothing at all) is rejected. */
  lemma EmptyRejected(request: FundingCreateRequest, item: FundingItem, status: FundingStatus)
    requires StrippedAmount(request) == []
    ensures ToEntity(request, item, status) == Err(NumberFormat)
  {
  }

  /** A character other than a digit, past an optional leading sign, is rejected. */
  lemma NonDigitRejected(request: FundingCreateRequest, item: FundingItem, status: FundingStatus, i: nat)
    requires i < |StrippedAmount(request)| && !IsDigit(StrippedAmount(request)[i])
    requires i > 0 || (StrippedAmount(request)[0] != '-' && StrippedAmount(request)[0] != '+')
    ensures ToEntity(request, item, status) == Err(NumberFormat)
  {
    var s := StrippedAmount(request);
    if s[0] == '-' || s[0] == '+' {
      assert s[1..][i - 1] == s[i];
    }
  }

  /** Digits whose value does not fit in an `int` are rejected. */
  lemma TooLargeRejected(request: FundingCreateRequest, item: FundingItem, status: FundingStatus)
    requires StrippedAmount(request) != [] && AllDigits(StrippedAmount(request))
    requires DecimalValue(StrippedAmount(request)) > INT_MAX
    ensures ToEntity(request, item, status) == Err(NumberFormat)
  {
  }

  /** Any `int`, printed in decimal, converts back to itself. */
  lemma PrintedAmountConverts(request: FundingCreateRequest, item: FundingItem, status: FundingStatus, v: int)
    requires INT_MIN <= v <= INT_MAX && request.targetAmount == IntToString(v)
    ensures ToEntity(request, item, status).Ok?
    ensures ToEntity(request, item, status).value.targetAmount == v
  {
    var digits := NatToString(if v < 0 then -v else v);
    RemoveCharAbsent(digits, ',');
    if v < 0 {
      RemoveCharAppend("-", digits, ',');
      assert RemoveChar("-", ',') == "-";
    }
    ParseIntOfIntToString(v);
  }

  /** Grouped thousands: "10,000" is ten thousand. */
  lemma GroupedExample(request: FundingCreateRequest, item: FundingItem, status: FundingStatus)
    requires request.targetAmount == "10,000"
    ensures ToEntity(request, item, status).Ok?
    ensures ToEntity(request, item, status).value.targetAmount == 10000
  {
    assert request.targetAmount == "10" + "," + "000";
    CommaIgnored(request, item, status, "10", "000");
    var plain := request.(targetAmount := "10000");
    assert plain == request.(targetAmount := "10" + "000");
    TenThousandDigits();
    DigitsConvert(plain, item, status);
  }

  lemma TenThousandDigits()
    ensures RemoveChar("10000", ',') == "10000" && AllDigits("10000") && DecimalValue("10000") == 10000
  {
    RemoveCharAbsent("10000", ',');
    assert "10000"[..4] == "1000" && "1000"[..3] == "100" && "100"[..2] == "10" && "10"[..1] == "1";
  }

  /** Comma placement is not checked: "1,,0" is ten. */
  lemma DoubledCommaExample(request: FundingCreateRequest, item: FundingItem, status: FundingStatus)
    requires request.targetAmount == "1,,0"
    ensures ToEntity(request, item, status).Ok?
    ensures ToEntity(request, item, status).value.targetAmount == 10
  {
    assert request.targetAmount == "1" + "," + ",0";
    CommaIgnored(request, item, status, "1", ",0");
    var once := request.(targetAmount := "1,0");
    assert once == request.(targetAmount := "1" + ",0");
    assert once.targetAmount == "1" + "," + "0";
    CommaIgnored(once, item, status, "1", "0");
    var plain := request.(targetAmount := "10");
    assert plain == once.(targetAmount := "1" + "0");
    RemoveCharAbsent("10", ',');
    assert "10"[..1] == "1";
    DigitsConvert(plain, item, status);
  }

  /** A printed number past the largest `int` does not convert. */
  lemma PrintedOverflowRejected(request: FundingCreateRequest, item: FundingItem, status: FundingStatus, n: nat)
    requires n > INT_MAX && request.targetAmount == NatToString(n)
    ensures ToEntity(request, item, status) == Err(NumberFormat)
  {
    RemoveCharAbsent(NatToString(n), ',');
    DecimalValueOfNatToString(n);
    TooLargeRejected(request, item, status);
  }

  /** The totals shown on the landing page. */
  datatype FundingSummary = FundingSummary(
    totalDonationsCount: int,
    successfulFundingsCount: int,
    totalFundingAmount: int)

  /** `new FundingSummary()`: every total zero. */
  const EMPTY_SUMMARY := FundingSummary(0, 0, 0)
}
