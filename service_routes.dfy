/**
 * Creating, updating and deleting a service (routes/api/services.js, the
 * POST, PUT and DELETE handlers). Create and update first run the same field
 * checks over the request body, collecting every failure; only a body with
 * no failure reaches the store. Update and delete touch only a service the
 * requester owns.
 */
module ServiceRoutes {
  import opened Wrappers
  import opened Text
  import opened Ids
  import opened Clock
  import opened ServiceModel
  import opened Store
  import Calendar

  // ------------------------------------------------------------ request body

  /** A numeric body field: absent (or null), a JSON number, or a value of another type. */
  datatype NumberField = Missing | Number(value: real) | NotANumber

  /** One `working_hours` element as sent: each of its strings may be absent. */
  datatype HourInput = HourInput(day: Option<string>, startTime: Option<string>, endTime: Option<string>)

  /** The `working_hours` field: absent (or null), a value that is not an array, or an array. */
  datatype HoursField = NoHours | NotAList | Hours(entries: seq<HourInput>)

  datatype ServiceBody = ServiceBody(
    name: Option<string>, categoryId: Option<string>,
    price: NumberField, duration: NumberField, experience: NumberField,
    workingHours: HoursField)

  /** The two handlers differ only in how they compare an entry's times. */
  datatype Route = Post | Put

  /** One entry of the `errors` list; the entry errors carry the element's index. */
  datatype ValidationError =
    | NameRequired | CategoryRequired | PriceInvalid | DurationInvalid | ExperienceInvalid
    | HoursNotList
    | DayInvalid(index: nat) | StartInvalid(index: nat) | EndInvalid(index: nat) | OrderInvalid(index: nat)
  {
    predicate IsEntryError() {
      DayInvalid? || StartInvalid? || EndInvalid? || OrderInvalid?
    }
  }

  /** `Number.isInteger` on a number. */
  predicate IsInteger(x: real) {
    x.Floor as real == x
  }

  /** `name` is present and not blank. */
  predicate NameGiven(name: Option<string>) {
    name.Some? && Trim(name.value) != []
  }

  predicate CategoryGiven(c: Option<string>) {
    c.Some? && IsValidObjectId(c.value)
  }

  predicate PricePositive(p: NumberField) {
    p.Number? && p.value > 0.0
  }

  predicate DurationPositiveInteger(d: NumberField) {
    d.Number? && IsInteger(d.value) && d.value > 0.0
  }

  /** `experience` may be left out; if given it is a non-negative integer. */
  predicate ExperienceAllowed(e: NumberField) {
    e.Missing? || (e.Number? && IsInteger(e.value) && e.value >= 0.0)
  }

  predicate DayGiven(d: Option<string>) {
    d.Some? && d.value in Calendar.Days
  }

  predicate TimeGiven(t: Option<string>) {
    t.Some? && IsTime24(t.value)
  }

  // ------------------------------------------------- the update's time parse

  /** The index of the first ':' in `s`. */
  function ColonIndex(s: string): (r: Option<nat>)
    ensures r.Some? ==> r.value < |s| && s[r.value] == ':' && forall j :: 0 <= j < r.value ==> s[j] != ':'
    ensures r.None? ==> forall j :: 0 <= j < |s| ==> s[j] != ':'
  {
    if s == [] then None
    else if s[0] == ':' then Some(0)
    else
      var rest := ColonIndex(s[1..]);
      if rest.Some? then Some(rest.value + 1) else None
  }

  /** The text before the first ':', or all of `s`. */
  function UpToColon(s: string): (r: string)
    ensures |r| <= |s| && r == s[..|r|] && forall j :: 0 <= j < |r| ==> r[j] != ':'
  {
    var k := ColonIndex(s);
    if k.Some? then s[..k.value] else s
  }

  /**
   * `Number` of one piece of the split. Digit strings, the empty one
   * included, are read in decimal; anything else is taken as NaN (None).
   */
  function PieceNumber(piece: string): Option<nat> {
    if AllDigits(piece) then Some(DecimalValue(piece)) else None
  }

  /** `sh * 60 + sm` of `s.split(':').map(Number)`; None stands for NaN. Without ':' the minutes are undefined. */
  function SplitMinutes(s: string): Option<int> {
    var k := ColonIndex(s);
    if k.None? then None
    else
      var h, m := PieceNumber(s[..k.value]), PieceNumber(UpToColon(s[k.value + 1..]));
      if h.Some? && m.Some? then Some(h.value * 60 + m.value) else None
  }

  /**
   * The update route's reading of a time, `(t || '00:00')`: a missing or
   * empty time stands for "00:00", which is minute 0 (`MidnightDefault`).
   * No comparison holds with NaN, so None never fails the order check.
   */
  function LooseMinutes(t: Option<string>): Option<int> {
    if t.None? || t.value == [] then Some(0) else SplitMinutes(t.value)
  }

  /** Whether the time-order check adds an error for this entry. */
  predicate OrderFails(w: HourInput, route: Route) {
    match route
    case Post =>
      // compared only when both times pass `TIME_REGEX`
      TimeGiven(w.startTime) && TimeGiven(w.endTime) && MinutesOf(w.startTime.value) >= MinutesOf(w.endTime.value)
    case Put =>
      var s, e := LooseMinutes(w.startTime), LooseMinutes(w.endTime);
      s.Some? && e.Some? && s.value >= e.value
  }

  // ------------------------------------------------------------- the errors

  /** `errors.push(e)` when a check fails. */
  function Push(errors: seq<ValidationError>, ok: bool, e: ValidationError): seq<ValidationError> {
    if ok then errors else errors + [e]
  }

  /** A push adds `e` exactly when the check fails, and nothing else. */
  lemma PushMember(errors: seq<ValidationError>, ok: bool, e: ValidationError, x: ValidationError)
    ensures x in Push(errors, ok, e) <==> x in errors || (!ok && x == e)
    ensures Push(errors, ok, e) == [] <==> errors == [] && ok
  {
  }

  /** The errors of the field checks, given whether each passes, in the order the handlers make them. */
  function FieldChecks(name: bool, category: bool, price: bool, duration: bool, experience: bool, list: bool): seq<ValidationError> {
    var e1 := Push([], name, NameRequired);
    var e2 := Push(e1, category, CategoryRequired);
    var e3 := Push(e2, price, PriceInvalid);
    var e4 := Push(e3, duration, DurationInvalid);
    var e5 := Push(e4, experience, ExperienceInvalid);
    Push(e5, list, HoursNotList)
  }

  /** Each field error is pushed exactly when its check fails. */
  lemma FieldChecksMembers(name: bool, category: bool, price: bool, duration: bool, experience: bool, list: bool, x: ValidationError)
    ensures x in FieldChecks(name, category, price, duration, experience, list) <==>
      || (x == NameRequired && !name) || (x == CategoryRequired && !category)
      || (x == PriceInvalid && !price) || (x == DurationInvalid && !duration)
      || (x == ExperienceInvalid && !experience) || (x == HoursNotList && !list)
  {
    var e1 := Push([], name, NameRequired);
    var e2 := Push(e1, category, CategoryRequired);
    var e3 := Push(e2, price, PriceInvalid);
    var e4 := Push(e3, duration, DurationInvalid);
    var e5 := Push(e4, experience, ExperienceInvalid);
    PushMember([], name, NameRequired, x);
    PushMember(e1, category, CategoryRequired, x);
    PushMember(e2, price, PriceInvalid, x);
    PushMember(e3, duration, DurationInvalid, x);
    PushMember(e4, experience, ExperienceInvalid, x);
    PushMember(e5, list, HoursNotList, x);
  }

  function FieldErrors(b: ServiceBody): seq<ValidationError> {
    FieldChecks(NameGiven(b.name), CategoryGiven(b.categoryId), PricePositive(b.price),
                DurationPositiveInteger(b.duration), ExperienceAllowed(b.experience), !b.workingHours.NotAList?)
  }

  /** The outcome of the four checks of one `working_hours` element: true where the check passes. */
  datatype EntryCheck = EntryCheck(day: bool, start: bool, end: bool, order: bool)

  /** Element `w` under the handler's four checks. */
  function CheckOf(w: HourInput, route: Route): EntryCheck {
    EntryCheck(DayGiven(w.day), TimeGiven(w.startTime), TimeGiven(w.endTime), !OrderFails(w, route))
  }

  /** The checks of every element, in order. */
  function ChecksOf(hs: seq<HourInput>, route: Route): (r: seq<EntryCheck>)
    ensures |r| == |hs| && forall i :: 0 <= i < |hs| ==> r[i] == CheckOf(hs[i], route)
  {
    seq(|hs|, i requires 0 <= i < |hs| => CheckOf(hs[i], route))
  }

  /** Whether the element with checks `c` fails the check that error `x` reports. */
  predicate Fails(c: EntryCheck, x: ValidationError) {
    match x
    case DayInvalid(_) => !c.day
    case StartInvalid(_) => !c.start
    case EndInvalid(_) => !c.end
    case OrderInvalid(_) => !c.order
    case _ => false
  }

  /** All four checks pass. */
  predicate Passes(c: EntryCheck) {
    c.day && c.start && c.end && c.order
  }

  /** Element `w` passes its four checks. */
  predicate EntryPasses(w: HourInput, route: Route) {
    Passes(CheckOf(w, route))
  }

  /** The four pushes of the `forEach` body for element `i`, onto `errors`. */
  function PushEntry(errors: seq<ValidationError>, c: EntryCheck, i: nat): seq<ValidationError> {
    var e1 := Push(errors, c.day, DayInvalid(i));
    var e2 := Push(e1, c.start, StartInvalid(i));
    var e3 := Push(e2, c.end, EndInvalid(i));
    Push(e3, c.order, OrderInvalid(i))
  }

  /** The element's checks push exactly the errors of the checks it fails, each naming index `i`. */
  lemma PushEntryMember(errors: seq<ValidationError>, c: EntryCheck, i: nat, x: ValidationError)
    ensures x in PushEntry(errors, c, i) <==> x in errors || (x.IsEntryError() && x.index == i && Fails(c, x))
    ensures PushEntry(errors, c, i) == [] <==> errors == [] && Passes(c)
  {
    var e1 := Push(errors, c.day, DayInvalid(i));
    var e2 := Push(e1, c.start, StartInvalid(i));
    var e3 := Push(e2, c.end, EndInvalid(i));
    PushMember(errors, c.day, DayInvalid(i), x);
    PushMember(e1, c.start, StartInvalid(i), x);
    PushMember(e2, c.end, EndInvalid(i), x);
    PushMember(e3, c.order, OrderInvalid(i), x);
  }

  /** The `forEach` over the elements' checks, in order. */
  function PushHours(errors: seq<ValidationError>, cs: seq<EntryCheck>): seq<ValidationError> {
    if cs == [] then errors
    else PushEntry(PushHours(errors, cs[..|cs| - 1]), cs[|cs| - 1], |cs| - 1)
  }

  /** The `errors` list a handler answers 400 with, when it is not empty. */
  function BodyErrors(b: ServiceBody, route: Route): seq<ValidationError> {
    if b.workingHours.Hours? then PushHours(FieldErrors(b), ChecksOf(b.workingHours.entries, route)) else FieldErrors(b)
  }

  /** The checks of the body's own fields. */
  method CheckFields(b: ServiceBody) returns (errors: seq<ValidationError>)
    ensures errors == FieldErrors(b)
  {
    errors := [];
    if !NameGiven(b.name) {
      errors := errors + [NameRequired];
    }
    if !CategoryGiven(b.categoryId) {
      errors := errors + [CategoryRequired];
    }
    if !PricePositive(b.price) {
      errors := errors + [PriceInvalid];
    }
    if !DurationPositiveInteger(b.duration) {
      errors := errors + [DurationInvalid];
    }
    if !ExperienceAllowed(b.experience) {
      errors := errors + [ExperienceInvalid];
    }
    if b.workingHours.NotAList? {
      errors := errors + [HoursNotList];
    }
  }

  /** The body of the `forEach` over `working_hours`, for the element at index `i`. */
  method CheckEntry(errors: seq<ValidationError>, w: HourInput, i: nat, route: Route) returns (out: seq<ValidationError>)
    ensures out == PushEntry(errors, CheckOf(w, route), i)
  {
    out := errors;
    if !DayGiven(w.day) {
      out := out + [DayInvalid(i)];
    }
    if !TimeGiven(w.startTime) {
      out := out + [StartInvalid(i)];
    }
    if !TimeGiven(w.endTime) {
      out := out + [EndInvalid(i)];
    }
    if OrderFails(w, route) {
      out := out + [OrderInvalid(i)];
    }
  }

  /** The `forEach` over `working_hours`, pushing onto `errors`. */
  method CheckEntries(errors: seq<ValidationError>, hs: seq<HourInput>, route: Route) returns (out: seq<ValidationError>)
    ensures out == PushHours(errors, ChecksOf(hs, route))
  {
    ghost var cs := ChecksOf(hs, route);
    out := errors;
    var i := 0;
    while i < |hs|
      invariant 0 <= i <= |hs|
      invariant out == PushHours(errors, cs[..i])
    {
      assert cs[..i + 1][..i] == cs[..i];
      out := CheckEntry(out, hs[i], i, route);
      i := i + 1;
    }
    assert cs[..i] == cs;
  }

  /** The inline checks of the POST and PUT handlers, in order. */
  method Validate(b: ServiceBody, route: Route) returns (errors: seq<ValidationError>)
    ensures errors == BodyErrors(b, route)
  {
    errors := CheckFields(b);
    if b.workingHours.Hours? {
      errors := CheckEntries(errors, b.workingHours.entries, route);
    }
  }

  // ------------------------------------------------ what the errors mean

  /** An entry error is in the list exactly when the element it names fails that check. */
  lemma {:induction false} PushHoursMembers(errors: seq<ValidationError>, cs: seq<EntryCheck>, x: ValidationError)
    ensures x in PushHours(errors, cs) <==>
      x in errors || (x.IsEntryError() && x.index < |cs| && Fails(cs[x.index], x))
  {
    if cs != [] {
      var n := |cs| - 1;
      var init := cs[..n];
      var before := PushHours(errors, init);
      assert PushHours(errors, cs) == PushEntry(before, cs[n], n);
      PushHoursMembers(errors, init, x);
      PushEntryMember(before, cs[n], n, x);
      if x.IsEntryError() && x.index < n {
        assert init[x.index] == cs[x.index];
      }
      if x.IsEntryError() && x.index == n {
        assert x.index < |cs| && cs[x.index] == cs[n];
      }
    }
  }

  /** The elements add no error exactly when each passes its checks. */
  lemma {:induction false} PushHoursEmpty(errors: seq<ValidationError>, cs: seq<EntryCheck>)
    ensures PushHours(errors, cs) == [] <==> errors == [] && forall i :: 0 <= i < |cs| ==> Passes(cs[i])
  {
    if cs != [] {
      var init := cs[..|cs| - 1];
      PushHoursEmpty(errors, init);
      PushEntryMember(PushHours(errors, init), cs[|cs| - 1], |cs| - 1, NameRequired);
      assert forall i :: 0 <= i < |init| ==> init[i] == cs[i];
    }
  }

  /** No field error names an element. */
  lemma FieldErrorsNotEntries(b: ServiceBody, x: ValidationError)
    requires x.IsEntryError()
    ensures x !in FieldErrors(b)
  {
    var n, c, p, d, e, l := NameGiven(b.name), CategoryGiven(b.categoryId), PricePositive(b.price),
      DurationPositiveInteger(b.duration), ExperienceAllowed(b.experience), !b.workingHours.NotAList?;
    FieldChecksMembers(n, c, p, d, e, l, x);
  }

  /** The field checks push nothing exactly when all of them pass. */
  lemma FieldErrorsEmpty(b: ServiceBody)
    ensures FieldErrors(b) == [] <==>
      && NameGiven(b.name) && CategoryGiven(b.categoryId) && PricePositive(b.price)
      && DurationPositiveInteger(b.duration) && ExperienceAllowed(b.experience) && !b.workingHours.NotAList?
  {
  }

  /** Each field error is in the field errors exactly when its check fails. */
  lemma FieldErrorsMembers(b: ServiceBody)
    ensures var errs := FieldErrors(b);
      && (NameRequired in errs <==> !NameGiven(b.name))
      && (CategoryRequired in errs <==> !CategoryGiven(b.categoryId))
      && (PriceInvalid in errs <==> !PricePositive(b.price))
      && (DurationInvalid in errs <==> !DurationPositiveInteger(b.duration))
      && (ExperienceInvalid in errs <==> !ExperienceAllowed(b.experience))
      && (HoursNotList in errs <==> b.workingHours.NotAList?)
  {
    var n, c, p, d, e, l := NameGiven(b.name), CategoryGiven(b.categoryId), PricePositive(b.price),
      DurationPositiveInteger(b.duration), ExperienceAllowed(b.experience), !b.workingHours.NotAList?;
    FieldChecksMembers(n, c, p, d, e, l, NameRequired);
    FieldChecksMembers(n, c, p, d, e, l, CategoryRequired);
    FieldChecksMembers(n, c, p, d, e, l, PriceInvalid);
    FieldChecksMembers(n, c, p, d, e, l, DurationInvalid);
    FieldChecksMembers(n, c, p, d, e, l, ExperienceInvalid);
    FieldChecksMembers(n, c, p, d, e, l, HoursNotList);
  }

  /** The list holds each field error exactly when its field fails the check. */
  lemma FieldErrorsComplete(b: ServiceBody, route: Route)
    ensures var errs := BodyErrors(b, route);
      && (NameRequired in errs <==> !NameGiven(b.name))
      && (CategoryRequired in errs <==> !CategoryGiven(b.categoryId))
      && (PriceInvalid in errs <==> !PricePositive(b.price))
      && (DurationInvalid in errs <==> !DurationPositiveInteger(b.duration))
      && (ExperienceInvalid in errs <==> !ExperienceAllowed(b.experience))
      && (HoursNotList in errs <==> b.workingHours.NotAList?)
  {
    FieldErrorsMembers(b);
    if b.workingHours.Hours? {
      var cs := ChecksOf(b.workingHours.entries, route);
      PushHoursMembers(FieldErrors(b), cs, NameRequired);
      PushHoursMembers(FieldErrors(b), cs, CategoryRequired);
      PushHoursMembers(FieldErrors(b), cs, PriceInvalid);
      PushHoursMembers(FieldErrors(b), cs, DurationInvalid);
      PushHoursMembers(FieldErrors(b), cs, ExperienceInvalid);
      PushHoursMembers(FieldErrors(b), cs, HoursNotList);
    }
  }

  /** The list holds each entry error exactly when the element at its index fails that check. */
  lemma EntryErrorsComplete(b: ServiceBody, route: Route, x: ValidationError)
    requires x.IsEntryError()
    ensures x in BodyErrors(b, route) <==>
      b.workingHours.Hours? && x.index < |b.workingHours.entries| && Fails(CheckOf(b.workingHours.entries[x.index], route), x)
  {
    FieldErrorsNotEntries(b, x);
    if b.workingHours.Hours? {
      PushHoursMembers(FieldErrors(b), ChecksOf(b.workingHours.entries, route), x);
    }
  }

  /** An element every check accepts: a listed day, two `TIME_REGEX` times, start strictly before end. */
  predicate EntryAccepted(w: HourInput) {
    DayGiven(w.day) && TimeGiven(w.startTime) && TimeGiven(w.endTime)
    && MinutesOf(w.startTime.value) < MinutesOf(w.endTime.value)
  }

  /** A body every check accepts. */
  predicate BodyAccepted(b: ServiceBody) {
    && NameGiven(b.name) && CategoryGiven(b.categoryId) && PricePositive(b.price)
    && DurationPositiveInteger(b.duration) && ExperienceAllowed(b.experience) && !b.workingHours.NotAList?
    && (b.workingHours.Hours? ==>
          forall i :: 0 <= i < |b.workingHours.entries| ==> EntryAccepted(b.workingHours.entries[i]))
  }

  /** For a time that `TIME_REGEX` accepts, the split gives its minute. */
  lemma SplitMinutesOfTime(t: string)
    requires IsTime24(t)
    ensures SplitMinutes(t) == Some(MinutesOf(t))
  {
    assert ColonIndex(t) == Some(2) by {
      assert t[2..][0] == ':';
      assert t[1..][1..] == t[2..];
    }
    var rest := t[3..];
    assert ColonIndex(rest) == None by {
      assert rest[1..][1..] == [];
    }
    assert UpToColon(rest) == rest;
    TwoDigitValue(t[..2]);
    TwoDigitValue(rest);
  }

  /** The default "00:00" of the update route is minute 0. */
  lemma MidnightDefault(midnight: string)
    requires midnight == "00:00"
    ensures SplitMinutes(midnight) == Some(0) && LooseMinutes(None) == LooseMinutes(Some(midnight))
  {
    SplitMinutesOfTime(midnight);
  }

  /** For a time that `TIME_REGEX` accepts, the update's loose reading gives its minute. */
  lemma LooseMinutesOfTime(t: string)
    requires IsTime24(t)
    ensures LooseMinutes(Some(t)) == Some(MinutesOf(t))
  {
    SplitMinutesOfTime(t);
  }

  /** With both times well formed, the two handlers' order checks agree. */
  lemma OrderChecksAgree(w: HourInput)
    requires TimeGiven(w.startTime) && TimeGiven(w.endTime)
    ensures OrderFails(w, Put) <==> OrderFails(w, Post)
  {
    LooseMinutesOfTime(w.startTime.value);
    LooseMinutesOfTime(w.endTime.value);
  }

  /** An element passes its checks under either handler exactly when it is accepted. */
  lemma EntryPassesIff(w: HourInput, route: Route)
    ensures EntryPasses(w, route) <==> EntryAccepted(w)
  {
    if TimeGiven(w.startTime) && TimeGiven(w.endTime) {
      OrderChecksAgree(w);
    }
  }

  /**
   * Either handler sends no error exactly when every check passes; in
   * particular the create and update routes accept the same bodies, although
   * their time-order checks differ.
   */
  lemma AcceptedIff(b: ServiceBody, route: Route)
    ensures BodyErrors(b, route) == [] <==> BodyAccepted(b)
  {
    FieldErrorsEmpty(b);
    if b.workingHours.Hours? {
      var hs := b.workingHours.entries;
      var cs := ChecksOf(hs, route);
      PushHoursEmpty(FieldErrors(b), cs);
      forall i | 0 <= i < |hs|
        ensures Passes(cs[i]) <==> EntryAccepted(hs[i])
      {
        EntryPassesIff(hs[i], route);
      }
    }
  }

  /**
   * The update's order check reads a missing end as "00:00", so it adds a
   * second error to an element whose `end_time` is missing; the create route
   * reports only the missing end.
   */
  lemma MissingEndOnUpdate(day: string, start: string, i: nat)
    requires day in Calendar.Days && IsTime24(start)
    ensures var w := HourInput(Some(day), Some(start), None);
      && PushEntry([], CheckOf(w, Post), i) == [EndInvalid(i)]
      && PushEntry([], CheckOf(w, Put), i) == [EndInvalid(i), OrderInvalid(i)]
  {
    LooseMinutesOfTime(start);
  }

  // ------------------------------------------------------------ the store

  datatype RouteCode = BadRequest(errors: seq<ValidationError>) | NotFound | ServerError | Done

  /** A handler's answer and the service collection it leaves. */
  datatype ServiceChange = ServiceChange(code: RouteCode, services: seq<Service>)

  function OrEmpty(s: Option<string>): string {
    if s.Some? then s.value else []
  }

  function NumberOr(n: NumberField, default: real): real {
    if n.Number? then n.value else default
  }

  /** An element as stored: the schema trims its strings. */
  function StoredHour(w: HourInput): WorkingHour {
    StoredEntry(WorkingHour(OrEmpty(w.day), OrEmpty(w.startTime), OrEmpty(w.endTime)))
  }

  function StoredHours(hs: seq<HourInput>): (r: seq<WorkingHour>)
    ensures |r| == |hs| && forall i :: 0 <= i < |hs| ==> r[i] == StoredHour(hs[i])
  {
    seq(|hs|, i requires 0 <= i < |hs| => StoredHour(hs[i]))
  }

  /** The document `Service.create` stores for an accepted body; `category` is the cast `category_id`. */
  function NewService(owner: Id, b: ServiceBody, newId: Id, category: Id): Service {
    Service(newId, owner, Trim(OrEmpty(b.name)), category,
            NumberOr(b.price, 0.0), NumberOr(b.duration, 0.0).Floor,
            ExperienceOrDefault(if b.experience.Number? then Some(b.experience.value) else None),
            HoursOrDefault(if b.workingHours.Hours? then Some(StoredHours(b.workingHours.entries)) else None))
  }

  /**
   * The document after `findOneAndUpdate` with an accepted body: the fields
   * the body sends replace the stored ones (`category` is the cast
   * `category_id`); an absent `experience` or `working_hours` leaves the
   * stored value.
   */
  function UpdatedService(s: Service, b: ServiceBody, category: Id): Service {
    s.(name := Trim(OrEmpty(b.name)), categoryId := category,
       price := NumberOr(b.price, 0.0), duration := NumberOr(b.duration, 0.0).Floor,
       experience := NumberOr(b.experience, s.experience),
       workingHours := if b.workingHours.Hours? then StoredHours(b.workingHours.entries) else s.workingHours)
  }

  /** The first service with this id owned by `owner`: the `{_id, user_id}` filter. */
  function OwnedIndex(svcs: seq<Service>, id: Id, owner: Id): (r: Option<nat>)
    ensures r.Some? ==> r.value < |svcs| && svcs[r.value].id == id && svcs[r.value].ownerId == owner
    ensures r.Some? ==> forall j :: 0 <= j < r.value ==> !(svcs[j].id == id && svcs[j].ownerId == owner)
    ensures r.None? ==> forall j :: 0 <= j < |svcs| ==> !(svcs[j].id == id && svcs[j].ownerId == owner)
  {
    if svcs == [] then None
    else if svcs[0].id == id && svcs[0].ownerId == owner then Some(0)
    else
      var rest := OwnedIndex(svcs[1..], id, owner);
      if rest.Some? then Some(rest.value + 1) else None
  }

  /**
   * `POST /api/services/` by `owner`; `newId` is the identifier the database
   * gives the document. A `category_id` that passes `isValid` but does not
   * cast makes `Service.create` reject: 500.
   */
  function CreateStep(svcs: seq<Service>, owner: Id, b: ServiceBody, newId: Id): ServiceChange {
    var errs := BodyErrors(b, Post);
    if errs != [] then ServiceChange(BadRequest(errs), svcs)
    else
      var cat := CastId(OrEmpty(b.categoryId));
      if cat.None? then ServiceChange(ServerError, svcs)
      else ServiceChange(Done, svcs + [NewService(owner, b, newId, cat.value)])
  }

  /** `PUT /api/services/:id` by `requester`. */
  function UpdateStep(svcs: seq<Service>, requester: Id, id: string, b: ServiceBody): ServiceChange {
    var errs := BodyErrors(b, Put);
    if errs != [] then ServiceChange(BadRequest(errs), svcs) else UpdateOwned(svcs, requester, id, b)
  }

  /**
   * `findOneAndUpdate({_id: id, user_id: requester}, ...)`. The query casts
   * the id and the update's `category_id`; one that does not cast makes it
   * throw: 500.
   */
  function UpdateOwned(svcs: seq<Service>, requester: Id, id: string, b: ServiceBody): ServiceChange {
    var c, cat := CastId(id), CastId(OrEmpty(b.categoryId));
    if c.None? || cat.None? then ServiceChange(ServerError, svcs)
    else
      var k := OwnedIndex(svcs, c.value, requester);
      if k.None? then ServiceChange(NotFound, svcs)
      else ServiceChange(Done, svcs[k.value := UpdatedService(svcs[k.value], b, cat.value)])
  }

  /** `DELETE /api/services/:id` by `requester`: `findOneAndDelete` casts the id, and throws (500) when it cannot. */
  function DeleteStep(svcs: seq<Service>, requester: Id, id: string): ServiceChange {
    var c := CastId(id);
    if c.None? then ServiceChange(ServerError, svcs)
    else
      var k := OwnedIndex(svcs, c.value, requester);
      if k.None? then ServiceChange(NotFound, svcs)
      else ServiceChange(Done, svcs[..k.value] + svcs[k.value + 1..])
  }

  method CreateService(db: Db, owner: Id, b: ServiceBody, newId: Id) returns (code: RouteCode)
    modifies db
    ensures ServiceChange(code, db.services) == CreateStep(old(db.services), owner, b, newId)
    ensures db.Contents() == old(db.Contents()).(services := db.services)
  {
    var errors := Validate(b, Post);
    if errors != [] {
      return BadRequest(errors);
    }
    var cat := CastId(OrEmpty(b.categoryId));
    if cat.None? {
      return ServerError;
    }
    AppendService(db, NewService(owner, b, newId, cat.value));
    code := Done;
  }

  method UpdateService(db: Db, requester: Id, id: string, b: ServiceBody) returns (code: RouteCode)
    modifies db
    ensures ServiceChange(code, db.services) == UpdateStep(old(db.services), requester, id, b)
    ensures db.Contents() == old(db.Contents()).(services := db.services)
  {
    var errors := Validate(b, Put);
    if errors != [] {
      return BadRequest(errors);
    }
    code := ApplyUpdate(db, requester, id, b);
  }

  method ApplyUpdate(db: Db, requester: Id, id: string, b: ServiceBody) returns (code: RouteCode)
    modifies db
    ensures ServiceChange(code, db.services) == UpdateOwned(old(db.services), requester, id, b)
    ensures db.Contents() == old(db.Contents()).(services := db.services)
  {
    var c, cat := CastId(id), CastId(OrEmpty(b.categoryId));
    if c.None? || cat.None? {
      return ServerError;
    }
    var k := OwnedIndex(db.services, c.value, requester);
    if k.None? {
      return NotFound;
    }
    ReplaceService(db, k.value, UpdatedService(db.services[k.value], b, cat.value));
    code := Done;
  }

  method DeleteService(db: Db, requester: Id, id: string) returns (code: RouteCode)
    modifies db
    ensures ServiceChange(code, db.services) == DeleteStep(old(db.services), requester, id)
    ensures db.Contents() == old(db.Contents()).(services := db.services)
  {
    var c := CastId(id);
    if c.None? {
      return ServerError;
    }
    var k := OwnedIndex(db.services, c.value, requester);
    if k.None? {
      return NotFound;
    }
    RemoveService(db, k.value);
    code := Done;
  }

  /** The write of `Service.create`: the document goes at the end of the collection. */
  method AppendService(db: Db, s: Service)
    modifies db
    ensures db.services == old(db.services) + [s]
    ensures db.Contents() == old(db.Contents()).(services := db.services)
  {
    db.SetServices(db.services + [s]);
  }

  /** The write of `findOneAndUpdate`: the document at `k` is replaced. */
  method ReplaceService(db: Db, k: nat, s: Service)
    requires k < |db.services|
    modifies db
    ensures db.services == old(db.services)[k := s]
    ensures db.Contents() == old(db.Contents()).(services := db.services)
  {
    db.SetServices(db.services[k := s]);
  }

  /** The write of `findOneAndDelete`: the document at `k` goes, the others keep their order. */
  method RemoveService(db: Db, k: nat)
    requires k < |db.services|
    modifies db
    ensures db.services == old(db.services)[..k] + old(db.services)[k + 1..]
    ensures db.Contents() == old(db.Contents()).(services := db.services)
  {
    db.SetServices(db.services[..k] + db.services[k + 1..]);
  }

  // --------------------------------------------------- what the routes do

  /**
   * Creation writes nothing unless every check passes and the category id
   * casts (500 when it does not); then it appends one service owned by the
   * requester with the trimmed name, the cast category id, and the body's
   * price and duration.
   */
  lemma CreateOutcomes(svcs: seq<Service>, owner: Id, b: ServiceBody, newId: Id)
    ensures var r := CreateStep(svcs, owner, b, newId);
      && (r.code.BadRequest? <==> !BodyAccepted(b))
      && (r.code.BadRequest? ==> r.services == svcs && r.code.errors == BodyErrors(b, Post))
      && (r.code == ServerError <==> BodyAccepted(b) && CastId(b.categoryId.value).None?)
      && (r.code == Done <==> BodyAccepted(b) && CastId(b.categoryId.value).Some?)
      && (r.code != Done ==> r.services == svcs)
      && (r.code == Done ==>
            && |r.services| == |svcs| + 1 && r.services[..|svcs|] == svcs
            && var s := r.services[|svcs|];
            && s.id == newId && s.ownerId == owner && s.name == Trim(b.name.value)
            && Some(s.categoryId) == CastId(b.categoryId.value) && s.price == b.price.value
            && s.duration as real == b.duration.value)
  {
    AcceptedIff(b, Post);
    var r := CreateStep(svcs, owner, b, newId);
    if r.code == Done {
      assert r.services[..|svcs|] == svcs;
    }
  }

  /** Neither a weekday name nor a 24-hour time has surrounding white space. */
  lemma DayNameIsBare(d: string)
    requires d in Calendar.Days
    ensures d != [] && !IsSpace(d[0]) && !IsSpace(d[|d| - 1])
  {
  }

  lemma TimeIsBare(t: string)
    requires IsTime24(t)
    ensures t != [] && !IsSpace(t[0]) && !IsSpace(t[|t| - 1])
  {
  }

  /** Strings without surrounding white space are stored as given, and the entry meets the schema. */
  lemma BareEntryStored(d: string, s: string, e: string)
    requires d != [] && !IsSpace(d[0]) && !IsSpace(d[|d| - 1])
    requires s != [] && !IsSpace(s[0]) && !IsSpace(s[|s| - 1])
    requires e != [] && !IsSpace(e[0]) && !IsSpace(e[|e| - 1])
    ensures StoredEntry(WorkingHour(d, s, e)) == WorkingHour(d, s, e)
    ensures EntryConforms(StoredEntry(WorkingHour(d, s, e)))
  {
    TrimNoop(d);
    TrimNoop(s);
    TrimNoop(e);
  }

  /** An accepted element is stored as it was sent, and meets the entry schema. */
  lemma AcceptedEntryStored(w: HourInput)
    requires EntryAccepted(w)
    ensures StoredHour(w) == WorkingHour(w.day.value, w.startTime.value, w.endTime.value)
    ensures EntryConforms(StoredHour(w))
  {
    DayNameIsBare(w.day.value);
    TimeIsBare(w.startTime.value);
    TimeIsBare(w.endTime.value);
    BareEntryStored(w.day.value, w.startTime.value, w.endTime.value);
  }

  lemma AcceptedNameTrimmed(b: ServiceBody)
    requires NameGiven(b.name)
    ensures IsTrimmedRequired(Trim(b.name.value))
  {
    TrimIdempotent(b.name.value);
  }

  /** A service created from an accepted body meets the service schema. */
  lemma CreatedConforms(owner: Id, b: ServiceBody, newId: Id, category: Id)
    requires owner != "" && IsStoredId(category)
    requires BodyAccepted(b)
    ensures ServiceModel.Conforms(NewService(owner, b, newId, category))
  {
    AcceptedNameTrimmed(b);
    var s := NewService(owner, b, newId, category);
    if b.workingHours.Hours? {
      var hs := b.workingHours.entries;
      forall i | 0 <= i < |s.workingHours|
        ensures EntryConforms(s.workingHours[i])
      {
        AcceptedEntryStored(hs[i]);
        assert s.workingHours[i] == StoredEntry(StoredHour(hs[i]));
        TrimIdempotent(hs[i].day.value);
        TrimIdempotent(hs[i].startTime.value);
        TrimIdempotent(hs[i].endTime.value);
      }
    }
  }

  /**
   * The store part of an update: 500 exactly when the id or the category id
   * does not cast; otherwise the first service with the cast id that the
   * requester owns, and no other.
   */
  lemma UpdateOwnedScoped(svcs: seq<Service>, requester: Id, id: string, b: ServiceBody)
    ensures var r, c := UpdateOwned(svcs, requester, id, b), CastId(id);
      && |r.services| == |svcs|
      && (r.code == ServerError <==> c.None? || CastId(OrEmpty(b.categoryId)).None?)
      && (r.code == NotFound <==> c.Some? && CastId(OrEmpty(b.categoryId)).Some?
                                  && forall s :: s in svcs ==> !(s.id == c.value && s.ownerId == requester))
      && (r.code != Done ==> r.services == svcs)
      && (r.code == Done ==> c.Some? && exists k :: (0 <= k < |svcs| && svcs[k].id == c.value && svcs[k].ownerId == requester
            && r.services[k].id == c.value && r.services[k].ownerId == requester
            && r.services[k].categoryId == CastId(OrEmpty(b.categoryId)).value
            && (forall j :: 0 <= j < |svcs| && j != k ==> r.services[j] == svcs[j])))
      && (forall j :: 0 <= j < |svcs| && svcs[j].ownerId != requester ==> r.services[j] == svcs[j])
  {
    var r := UpdateOwned(svcs, requester, id, b);
    var c, cat := CastId(id), CastId(OrEmpty(b.categoryId));
    if c.None? || cat.None? {
      assert r == ServiceChange(ServerError, svcs);
    } else {
      var k := OwnedIndex(svcs, c.value, requester);
      if k.None? {
        assert r == ServiceChange(NotFound, svcs);
        forall s | s in svcs
          ensures !(s.id == c.value && s.ownerId == requester)
        {
          var j :| 0 <= j < |svcs| && svcs[j] == s;
        }
      } else {
        assert svcs[k.value] in svcs;
        var t := UpdatedService(svcs[k.value], b, cat.value);
        assert t.id == c.value && t.ownerId == requester && t.categoryId == cat.value;
        assert r == ServiceChange(Done, svcs[k.value := t]);
        ReplaceOne(svcs, k.value, t);
      }
    }
  }

  lemma ReplaceOne(svcs: seq<Service>, k: nat, t: Service)
    requires k < |svcs|
    ensures |svcs[k := t]| == |svcs| && svcs[k := t][k] == t
    ensures forall j :: 0 <= j < |svcs| && j != k ==> svcs[k := t][j] == svcs[j]
  {
  }

  /**
   * Update writes nothing unless every check passes and both ids cast; then
   * it changes at most one service, the first one with the cast id that the
   * requester owns, keeping its id and owner. With no such service the
   * answer is 404 and nothing changes; every other service is left as it was.
   */
  lemma UpdateOwnerScoped(svcs: seq<Service>, requester: Id, id: string, b: ServiceBody)
    ensures var r, c := UpdateStep(svcs, requester, id, b), CastId(id);
      && |r.services| == |svcs|
      && (r.code.BadRequest? <==> !BodyAccepted(b))
      && (r.code.BadRequest? ==> r.services == svcs && r.code == BadRequest(BodyErrors(b, Put)))
      && (r.code == ServerError <==> BodyAccepted(b) && (c.None? || CastId(b.categoryId.value).None?))
      && (r.code == NotFound <==>
            && BodyAccepted(b) && c.Some? && CastId(b.categoryId.value).Some?
            && forall s :: s in svcs ==> !(s.id == c.value && s.ownerId == requester))
      && (r.code != Done ==> r.services == svcs)
      && (r.code == Done ==> c.Some? && exists k :: (0 <= k < |svcs| && svcs[k].id == c.value && svcs[k].ownerId == requester
            && r.services[k].id == c.value && r.services[k].ownerId == requester
            && (forall j :: 0 <= j < |svcs| && j != k ==> r.services[j] == svcs[j])))
      && (forall j :: 0 <= j < |svcs| && svcs[j].ownerId != requester ==> r.services[j] == svcs[j])
  {
    AcceptedIff(b, Put);
    UpdateOwnedScoped(svcs, requester, id, b);
  }

  /**
   * Delete answers 500 exactly when the id does not cast, and removes at
   * most one service, the first with the cast id that the requester owns;
   * with none the answer is 404 and nothing changes. Nobody else's service
   * is removed.
   */
  lemma DeleteOwnerScoped(svcs: seq<Service>, requester: Id, id: string)
    ensures var r, c := DeleteStep(svcs, requester, id), CastId(id);
      && (r.code == ServerError <==> c.None?)
      && (r.code == NotFound <==>
            c.Some? && forall s :: s in svcs ==> !(s.id == c.value && s.ownerId == requester))
      && (r.code != Done ==> r.services == svcs)
      && (r.code == Done ==> c.Some? && exists k :: (0 <= k < |svcs| && svcs[k].id == c.value && svcs[k].ownerId == requester
            && r.services == svcs[..k] + svcs[k + 1..]))
      && (forall s :: s in svcs && s.ownerId != requester ==> s in r.services)
  {
    var r, c := DeleteStep(svcs, requester, id), CastId(id);
    if c.Some? {
      var k := OwnedIndex(svcs, c.value, requester);
      if k.Some? {
        assert svcs[k.value] in svcs;
        var i := k.value;
        forall s | s in svcs && s.ownerId != requester
          ensures s in r.services
        {
          var j :| 0 <= j < |svcs| && svcs[j] == s;
          if j < i {
            assert r.services[j] == s;
          } else {
            assert r.services[j - 1] == svcs[i + 1..][j - 1 - i];
          }
        }
      }
    }
  }

  /** A service is updated or deleted by its id in any case of its letters, as the query casts it. */
  lemma OwnerRoutesIgnoreIdCase(svcs: seq<Service>, requester: Id, id: string, stored: Id, b: ServiceBody)
    requires IsStoredId(stored) && |id| == 24 && ToLower(id) == stored
    ensures UpdateStep(svcs, requester, id, b) == UpdateStep(svcs, requester, stored, b)
    ensures DeleteStep(svcs, requester, id) == DeleteStep(svcs, requester, stored)
  {
    CastOfStoredId(stored);
    CastIgnoresCase(stored, id);
  }
}
