/**
 * The request-parameter validators. Each is a sequence of guards that either
 * fails with a `ValidationError` or returns (a normalised value, for status,
 * limit and offset). An absent (`undefined` or `null`) argument is `None`.
 */
module Validators {
  import opened Wrappers
  import opened Errors
  import opened AppConstants
  import Text

  const REGION_REQUIRED: string := "Region is required and must be a non-empty string"
  const INVALID_REGION: string := "Invalid region. Must be one of: " + Text.Join(VALID_REGIONS, ", ")
  const STATUS_REQUIRED: string := "Status is required and must be a string"
  const INVALID_STATUS: string := "Invalid status. Must be one of: " + Text.Join(VALID_STATUSES, ", ")
  const SESSION_ID_REQUIRED: string := "Session ID is required and must be a non-empty string"
  const LIMIT_OUT_OF_RANGE: string :=
    "Limit must be a number between " + Text.NatToString(MIN_LIMIT) + " and " + Text.NatToString(MAX_LIMIT)
  const NEGATIVE_OFFSET: string := "Offset must be a non-negative number"

  /** The shared first guard: the argument is absent, empty or only whitespace. */
  predicate IsMissing(value: Option<string>)
    ensures IsMissing(value) <==> value.None? || Text.IsBlank(value.value)
  {
    value.None? || Text.Trim(value.value) == []
  }

  /** The regions, as `join(', ')` lists them: the four names, comma-separated, in their declared order. */
  lemma RegionsListed()
    ensures Text.Join(VALID_REGIONS, ", ") == "eu-central" + ", " + "us-east" + ", " + "us-west" + ", " + "ap-southeast"
  {
    var names := VALID_REGIONS;
    Text.JoinFour(names, ", ");
  }

  /** The region error: its fixed head, then the region list. */
  lemma RegionMessageAsWritten()
    ensures INVALID_REGION
         == "Invalid region. Must be one of: " + ("eu-central" + ", " + "us-east" + ", " + "us-west" + ", " + "ap-southeast")
  {
    RegionsListed();
  }

  /** The status names, as `join(', ')` lists them: the four names, comma-separated, in their declared order. */
  lemma StatusesListed()
    ensures Text.Join(VALID_STATUSES, ", ") == "pending" + ", " + "active" + ", " + "completed" + ", " + "failed"
  {
    var names := VALID_STATUSES;
    Text.JoinFour(names, ", ");
  }

  /** The status error: its fixed head, then the status list. */
  lemma StatusMessageAsWritten()
    ensures INVALID_STATUS
         == "Invalid status. Must be one of: " + ("pending" + ", " + "active" + ", " + "completed" + ", " + "failed")
  {
    StatusesListed();
  }

  /** The range error renders the two bounds in decimal. */
  lemma LimitMessageAsWritten()
    ensures LIMIT_OUT_OF_RANGE == "Limit must be a number between 1 and 100"
  {
    assert Text.NatToString(1) == "1";
    assert Text.NatToString(10) == "10";
    assert Text.NatToString(100) == "100";
  }

  /** A string whose first character is not whitespace is not blank. */
  lemma NotBlankWhenFirstKept(s: string)
    requires |s| > 0 && !Text.IsWhitespace(s[0])
    ensures !Text.IsBlank(s)
  {
  }

  /** No region or status name is blank, so the "required" guard never rejects one. */
  lemma EnumerationsNotBlank()
    ensures forall s :: s in VALID_REGIONS ==> !Text.IsBlank(s)
    ensures forall s :: s in VALID_STATUSES ==> !Text.IsBlank(s)
  {
    var names := VALID_REGIONS + VALID_STATUSES;
    forall i | 0 <= i < |names| ensures !Text.IsBlank(names[i]) {
      var s := names[i];
      assert !Text.IsWhitespace(s[0]) by {
        assert i == 0 || i == 1 || i == 2 || i == 3 || i == 4 || i == 5 || i == 6 || i == 7;
      }
      NotBlankWhenFirstKept(s);
    }
    assert forall s :: s in VALID_REGIONS ==> s in names;
    assert forall s :: s in VALID_STATUSES ==> s in names;
  }

  /** The "required" and "invalid" messages differ, so a reply tells the two failures apart. */
  lemma MessagesDistinct()
    ensures REGION_REQUIRED != INVALID_REGION
    ensures STATUS_REQUIRED != INVALID_STATUS
  {
    var regionHead := "Invalid region. Must be one of: ";
    assert INVALID_REGION[0] == (regionHead + Text.Join(VALID_REGIONS, ", "))[0] == regionHead[0];
    var statusHead := "Invalid status. Must be one of: ";
    assert INVALID_STATUS[0] == (statusHead + Text.Join(VALID_STATUSES, ", "))[0] == statusHead[0];
  }

  /**
   * `validateRegion`: succeeds exactly for the four regions; a missing value
   * is reported as such before membership is checked.
   */
  function ValidateRegion(region: Option<string>): (r: Result<(), AppError>)
    ensures r.Ok? <==> region.Some? && region.value in VALID_REGIONS
    ensures r.Err? ==> r.error.Validation?
    ensures r.Err? ==> (r.error.Message() == REGION_REQUIRED <==> region.None? || Text.IsBlank(region.value))
    ensures region.Some? && !Text.IsBlank(region.value) && region.value !in VALID_REGIONS ==> r == Err(Validation(INVALID_REGION))
  {
    EnumerationsNotBlank();
    MessagesDistinct();
    if IsMissing(region) then Err(Validation(REGION_REQUIRED))
    else if region.value !in VALID_REGIONS then Err(Validation(INVALID_REGION))
    else Ok(())
  }

  /**
   * `validateStatus`: succeeds exactly for the four status names, returning
   * the status that name denotes.
   */
  function ValidateStatus(status: Option<string>): (r: Result<Status, AppError>)
    ensures r.Ok? <==> status.Some? && status.value in VALID_STATUSES
    ensures r.Ok? ==> r.value.Name() == status.value
    ensures r.Err? ==> r.error.Validation?
    ensures r.Err? ==> (r.error.Message() == STATUS_REQUIRED <==> status.None? || Text.IsBlank(status.value))
    ensures status.Some? && !Text.IsBlank(status.value) && status.value !in VALID_STATUSES ==> r == Err(Validation(INVALID_STATUS))
  {
    EnumerationsNotBlank();
    MessagesDistinct();
    if IsMissing(status) then Err(Validation(STATUS_REQUIRED))
    else if status.value !in VALID_STATUSES then Err(Validation(INVALID_STATUS))
    else Ok(StatusNamed(status.value))
  }

  /** Each status passes through `validateStatus` unchanged. */
  lemma StatusRoundTrip(st: Status)
    ensures ValidateStatus(Some(st.Name())) == Ok(st)
  {
    StatusNameInjective(ValidateStatus(Some(st.Name())).value, st);
  }

  /** Validating an already validated status changes nothing. */
  lemma ValidateStatusIdempotent(status: Option<string>)
    requires status.Some? && status.value in VALID_STATUSES
    ensures ValidateStatus(Some(ValidateStatus(status).value.Name())) == ValidateStatus(status)
  {
    StatusRoundTrip(ValidateStatus(status).value);
  }

  /** `validateSessionId`: any identifier with a non-whitespace character passes. */
  function ValidateSessionId(sessionId: Option<string>): (r: Result<(), AppError>)
    ensures r.Ok? <==> sessionId.Some? && !Text.IsBlank(sessionId.value)
    ensures r.Err? ==> r.error == Validation(SESSION_ID_REQUIRED)
  {
    if IsMissing(sessionId) then Err(Validation(SESSION_ID_REQUIRED)) else Ok(())
  }

  /**
   * `validateLimit`: absent gives the default; a present value passes
   * unchanged exactly when it lies in [MIN_LIMIT, MAX_LIMIT].
   */
  function ValidateLimit(limit: Option<int>): (r: Result<int, AppError>)
    ensures limit.None? ==> r == Ok(DEFAULT_LIMIT)
    ensures limit.Some? ==> (r.Ok? <==> MIN_LIMIT <= limit.value <= MAX_LIMIT)
    ensures limit.Some? && r.Ok? ==> r.value == limit.value
    ensures r.Err? ==> r.error == Validation(LIMIT_OUT_OF_RANGE)
  {
    if limit.None? then Ok(DEFAULT_LIMIT)
    else if limit.value < MIN_LIMIT || limit.value > MAX_LIMIT then Err(Validation(LIMIT_OUT_OF_RANGE))
    else Ok(limit.value)
  }

  /** The boundary cases: 1 and 100 pass, 0, 101 and -1 fail. */
  lemma LimitBoundaries()
    ensures ValidateLimit(Some(1)) == Ok(1) && ValidateLimit(Some(100)) == Ok(100)
    ensures ValidateLimit(Some(0)).Err? && ValidateLimit(Some(101)).Err? && ValidateLimit(Some(-1)).Err?
  {
  }

  /** `validateOffset`: absent gives the default; a present value passes unchanged exactly when it is not negative. */
  function ValidateOffset(offset: Option<int>): (r: Result<int, AppError>)
    ensures offset.None? ==> r == Ok(DEFAULT_OFFSET)
    ensures offset.Some? ==> (r.Ok? <==> offset.value >= 0)
    ensures offset.Some? && r.Ok? ==> r.value == offset.value
    ensures r.Err? ==> r.error == Validation(NEGATIVE_OFFSET)
  {
    if offset.None? then Ok(DEFAULT_OFFSET)
    else if offset.value < 0 then Err(Validation(NEGATIVE_OFFSET))
    else Ok(offset.value)
  }
}
