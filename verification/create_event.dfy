/**
 * The admin's event-creation dialogue: eight steps in a fixed order (name, description, price,
 * address, maximum participants, date, time, poster), the reply checks of each step, the
 * autofill from the newest event, and the single insert of the new event when the dialogue
 * leaves the time step.
 *
 * The dialogue's FSM context is a `Session` whose `state` and `data` the handlers update.
 * Python's `float(text)` and `str(float)` are the parameters `parseFloat` and `showFloat`,
 * and the local date is the parameter `today`.
 */
module CreateEvent {
  import opened Wrappers
  import opened Text
  import opened Calendar
  import opened Store

  // ---------------------------------------------------------------- steps

  /** `EventStates`. */
  datatype Step = AskName | AskDescription | AskPrice | AskAddress | AskMax | AskDate | AskTime | AskPoster

  /** The position of a step in the dialogue. */
  function Order(s: Step): nat {
    match s
    case AskName => 0
    case AskDescription => 1
    case AskPrice => 2
    case AskAddress => 3
    case AskMax => 4
    case AskDate => 5
    case AskTime => 6
    case AskPoster => 7
  }

  /** The step a valid reply leads to; the poster step ends the dialogue. */
  function NextStep(s: Step): (r: Option<Step>)
    ensures r.None? <==> s == AskPoster
    ensures r.Some? ==> Order(r.value) == Order(s) + 1
  {
    match s
    case AskName => Some(AskDescription)
    case AskDescription => Some(AskPrice)
    case AskPrice => Some(AskAddress)
    case AskAddress => Some(AskMax)
    case AskMax => Some(AskDate)
    case AskDate => Some(AskTime)
    case AskTime => Some(AskPoster)
    case AskPoster => None
  }

  /** Steps are told apart by their position, so the order is strict. */
  lemma OrderInjective(a: Step, b: Step)
    ensures Order(a) == Order(b) ==> a == b
  {
  }

  // ---------------------------------------------------------------- the data map

  /** A value in the FSM data: a `str`, `None`, a `float`, an `int`, or the chosen date. */
  datatype Value = Text(text: string) | Absent | Number(number: real) | Whole(whole: int) | Day(day: Date)

  function OfText(o: Option<string>): Value {
    match o
    case Some(s) => Text(s)
    case None => Absent
  }

  function OfPrice(o: Option<real>): Value {
    match o
    case Some(p) => Number(p)
    case None => Absent
  }

  predicate TextLike(v: Value) {
    v.Text? || v.Absent?
  }

  function AsText(v: Value): (o: Option<string>)
    requires TextLike(v)
    ensures OfText(o) == v
  {
    if v.Text? then Some(v.text) else None
  }

  function AsPrice(v: Value): (o: Option<real>)
    requires v.Number? || v.Absent?
    ensures OfPrice(o) == v
  {
    if v.Number? then Some(v.number) else None
  }

  /** Each key of the data map holds the kind of value its step stores. */
  predicate WellTyped(data: map<string, Value>) {
    && ("name" in data ==> TextLike(data["name"]))
    && ("description" in data ==> TextLike(data["description"]))
    && ("price" in data ==> data["price"].Number? || data["price"].Absent?)
    && ("address" in data ==> TextLike(data["address"]))
    && ("max_participants" in data ==> data["max_participants"].Whole?)
    && ("date" in data ==> data["date"].Day? && ValidDate(data["date"].day))
    && ("time" in data ==> TextLike(data["time"]))
    && ("event_id" in data ==> data["event_id"].Whole?)
  }

  /** The seven keys `save_event` reads. */
  predicate HasEventFields(data: map<string, Value>) {
    && "name" in data && "description" in data && "price" in data && "address" in data
    && "max_participants" in data && "date" in data && "time" in data
  }

  /**
   * The row `save_event` inserts, or None where reading a missing key raises KeyError.
   * All seven collected values go into their columns; the new row is not deleted.
   */
  function RowFromData(data: map<string, Value>, id: int): (r: Option<EventRow>)
    requires WellTyped(data)
    ensures r.Some? <==> HasEventFields(data)
    ensures r.Some? ==> r.value.id == id && !r.value.deleted && ValidDate(r.value.date)
    ensures r.Some? ==> OfText(r.value.name) == data["name"] && OfText(r.value.description) == data["description"]
    ensures r.Some? ==> OfPrice(r.value.price) == data["price"] && OfText(r.value.address) == data["address"]
    ensures r.Some? ==> r.value.maxParticipants == Some(data["max_participants"].whole)
    ensures r.Some? ==> r.value.date == data["date"].day && OfText(r.value.time) == data["time"]
  {
    if HasEventFields(data) then
      Some(EventRow(id, AsText(data["name"]), AsText(data["description"]), AsPrice(data["price"]),
        AsText(data["address"]), Some(data["max_participants"].whole), data["date"].day,
        AsText(data["time"]), false))
    else None
  }

  /** `save_event`: inserts the collected fields and returns the new `event_id`. */
  method SaveEvent(db: Db, data: map<string, Value>) returns (id: Option<int>)
    requires db.Valid() && WellTyped(data)
    modifies db
    ensures db.Valid()
    ensures db.registrations == old(db.registrations) && db.users == old(db.users) && db.logs == old(db.logs)
    ensures match RowFromData(data, NextId(old(db.events)))
      case None => id.None? && db.events == old(db.events)
      case Some(row) => id == Some(row.id) && db.events == old(db.events) + [row]
  {
    var row := RowFromData(data, NextId(db.events));
    if row.None? {
      return None;
    }
    NextIdKeepsValid(db.events, row.value);
    db.events := db.events + [row.value];
    id := Some(row.value.id);
  }

  // ---------------------------------------------------------------- autofill

  /** The columns `get_last_event` reads from the newest row (deleted rows included). */
  datatype Previous = Previous(address: Option<string>, maxParticipants: Option<int>, price: Option<real>, time: Option<string>)

  function LastEvent(events: seq<EventRow>): (r: Option<Previous>)
    ensures r.None? <==> events == []
    ensures r.Some? ==> exists e :: (e in events && r.value == Previous(e.address, e.maxParticipants, e.price, e.time)
      && forall f :: f in events ==> f.id <= e.id)
  {
    match LatestEvent(events)
    case None => None
    case Some(e) => Some(Previous(e.address, e.maxParticipants, e.price, e.time))
  }

  /** The helper values a dialogue needs from outside: the local date, `float()` and `str(float)`. */
  datatype Env = Env(today: Date, parseFloat: string -> Option<real>, showFloat: real -> string)

  /** `f"💰 {last[2]}"`. */
  function PriceLabel(p: Option<real>, env: Env): string {
    "\U{1F4B0} " + (match p case Some(v) => env.showFloat(v) case None => "None")
  }

  /** `f"🏠 {last[0]}"`. */
  function AddressLabel(a: Option<string>): string {
    "\U{1F3E0} " + OptionText(a)
  }

  /** `f"👥 {last[1]}"`. */
  function MaxLabel(m: Option<int>): string {
    "\U{1F465} " + (match m case Some(n) => IntToString(n) case None => "None")
  }

  /** `f"⏰ {last[3]}"`. */
  function TimeLabel(t: Option<string>): string {
    "\U{23F0} " + OptionText(t)
  }

  predicate NonEmptyText(o: Option<string>) {
    o.Some? && o.value != ""
  }

  /** The autofill button offered with the address question: only for a truthy address. */
  function AddressOffer(last: Option<Previous>): (r: Option<string>)
    ensures r.Some? <==> last.Some? && NonEmptyText(last.value.address)
    ensures r.Some? ==> r.value == AddressLabel(last.value.address)
  {
    if last.Some? && NonEmptyText(last.value.address) then Some(AddressLabel(last.value.address)) else None
  }

  /** The autofill button offered with the capacity question: only for a non-zero capacity. */
  function MaxOffer(last: Option<Previous>): (r: Option<string>)
    ensures r.Some? <==> last.Some? && last.value.maxParticipants.Some? && last.value.maxParticipants.value != 0
    ensures r.Some? ==> r.value == MaxLabel(last.value.maxParticipants)
  {
    if last.Some? && last.value.maxParticipants.Some? && last.value.maxParticipants.value != 0
    then Some(MaxLabel(last.value.maxParticipants)) else None
  }

  /** The autofill button offered with the time question: only for a truthy time. */
  function TimeOffer(last: Option<Previous>): (r: Option<string>)
    ensures r.Some? <==> last.Some? && NonEmptyText(last.value.time)
    ensures r.Some? ==> r.value == TimeLabel(last.value.time)
  {
    if last.Some? && NonEmptyText(last.value.time) then Some(TimeLabel(last.value.time)) else None
  }

  /** The autofill button offered with the price question: whenever there is an earlier event. */
  function PriceOffer(last: Option<Previous>, env: Env): (r: Option<string>)
    ensures r.Some? <==> last.Some?
    ensures r.Some? ==> r.value == PriceLabel(last.value.price, env)
  {
    if last.Some? then Some(PriceLabel(last.value.price, env)) else None
  }

  // ---------------------------------------------------------------- reply checks

  /** How a step reads a reply: a value to store, a re-prompt, or an uncaught exception. */
  datatype Reading = Accept(value: Value) | Reject | Raise

  /** `float(text)` accepted only when not negative. */
  function ParsePrice(text: string, env: Env): (r: Option<real>)
    ensures r.Some? <==> env.parseFloat(text).Some? && env.parseFloat(text).value >= 0.0
    ensures r.Some? ==> r.value == env.parseFloat(text).value
  {
    match env.parseFloat(text)
    case Some(v) => if v >= 0.0 then Some(v) else None
    case None => None
  }

  /**
   * `event_price`: the exact autofill label takes the earlier price as it is (even `None`);
   * otherwise a missing text raises and a text that is not a number at least 0 re-prompts.
   */
  function PriceReading(text: Option<string>, last: Option<Previous>, env: Env): (r: Reading)
    ensures last.Some? && text == Some(PriceLabel(last.value.price, env)) ==> r == Accept(OfPrice(last.value.price))
    ensures !(last.Some? && text == Some(PriceLabel(last.value.price, env))) ==>
      && (r.Raise? <==> text.None?)
      && (r.Accept? <==> text.Some? && ParsePrice(text.value, env).Some?)
      && (r.Accept? ==> r.value == Number(ParsePrice(text.value, env).value) && r.value.number >= 0.0)
  {
    if last.Some? && text == Some(PriceLabel(last.value.price, env)) then Accept(OfPrice(last.value.price))
    else if text.None? then Raise
    else match ParsePrice(text.value, env)
      case Some(v) => Accept(Number(v))
      case None => Reject
  }

  /** `event_address`: the exact label takes the earlier address; any other reply is kept as it is. */
  function AddressReading(text: Option<string>, last: Option<Previous>): (r: Value)
    ensures last.Some? && text == Some(AddressLabel(last.value.address)) ==> r == OfText(last.value.address)
    ensures !(last.Some? && text == Some(AddressLabel(last.value.address))) ==> r == OfText(text)
  {
    if last.Some? && text == Some(AddressLabel(last.value.address)) then OfText(last.value.address)
    else OfText(text)
  }

  /** `int(text)` accepted only when positive. */
  function ParseCount(text: string): (r: Option<int>)
    ensures r.Some? ==> r.value > 0 && ParseInt(text) == r
    ensures r.None? ==> ParseInt(text).None? || ParseInt(text).value <= 0
  {
    match ParseInt(text)
    case Some(n) => if n > 0 then Some(n) else None
    case None => None
  }

  /**
   * `event_max`: the exact label takes the earlier capacity (raising when it was `None`);
   * otherwise a missing text raises and a text that is not a positive integer re-prompts.
   */
  function MaxReading(text: Option<string>, last: Option<Previous>): (r: Reading)
    ensures last.Some? && text == Some(MaxLabel(last.value.maxParticipants)) ==>
      r == (match last.value.maxParticipants case Some(n) => Accept(Whole(n)) case None => Raise)
    ensures !(last.Some? && text == Some(MaxLabel(last.value.maxParticipants))) ==>
      && (r.Raise? <==> text.None?)
      && (r.Accept? <==> text.Some? && ParseCount(text.value).Some?)
      && (r.Accept? ==> r.value == Whole(ParseCount(text.value).value) && r.value.whole > 0)
  {
    if last.Some? && text == Some(MaxLabel(last.value.maxParticipants)) then
      match last.value.maxParticipants
      case Some(n) => Accept(Whole(n))
      case None => Raise
    else if text.None? then Raise
    else match ParseCount(text.value)
      case Some(n) => Accept(Whole(n))
      case None => Reject
  }

  /**
   * `datetime(year, month, day)` in the current year, or in the next year when that day has
   * already passed: the first such day that is not in the past. None where `datetime` raises
   * (no such calendar day, or a year past 9999).
   */
  function PlaceDate(day: int, month: int, today: Date): (r: Option<Date>)
    requires ValidDate(today)
    ensures r.Some? ==> ValidDate(r.value) && !Before(r.value, today) && r.value.month == month && r.value.day == day
    ensures r.Some? ==> ValidDate(Date(today.year, month, day))
    ensures r.Some? && r.value.year != today.year ==>
      r.value.year == today.year + 1 && Before(Date(today.year, month, day), today)
    ensures ValidDate(Date(today.year, month, day)) && !Before(Date(today.year, month, day), today) ==>
      r == Some(Date(today.year, month, day))
    ensures r.None? <==> (!ValidDate(Date(today.year, month, day))
      || (Before(Date(today.year, month, day), today) && !ValidDate(Date(today.year + 1, month, day))))
  {
    var first := Date(today.year, month, day);
    if !ValidDate(first) then None
    else if !Before(first, today) then Some(first)
    else
      var second := Date(today.year + 1, month, day);
      if ValidDate(second) then Some(second) else None
  }

  /**
   * `event_date`: the stripped reply split at dots must give exactly two integers, day and
   * month; every failure is None, which the handler turns into a re-prompt.
   */
  function ResolveDate(text: string, today: Date): (r: Option<Date>)
    requires ValidDate(today)
    ensures r.Some? ==> ValidDate(r.value) && !Before(r.value, today)
    ensures r.Some? ==> r.value.year == today.year || r.value.year == today.year + 1
    ensures var parts := Split(Strip(text), '.');
      r.Some? <==> (|parts| == 2 && ParseInt(parts[0]).Some? && ParseInt(parts[1]).Some?
        && PlaceDate(ParseInt(parts[0]).value, ParseInt(parts[1]).value, today).Some?)
    ensures var parts := Split(Strip(text), '.');
      r.Some? ==> |parts| == 2 && ParseInt(parts[0]) == Some(r.value.day) && ParseInt(parts[1]) == Some(r.value.month)
  {
    var parts := Split(Strip(text), '.');
    if |parts| != 2 then None
    else match (ParseInt(parts[0]), ParseInt(parts[1]))
      case (Some(day), Some(month)) => PlaceDate(day, month, today)
      case _ => None
  }

  /** `event_date` as a reading: `message.text.strip()` raises on a missing text. */
  function DateReading(text: Option<string>, today: Date): (r: Reading)
    requires ValidDate(today)
    ensures r.Raise? <==> text.None?
    ensures r.Accept? <==> text.Some? && ResolveDate(text.value, today).Some?
    ensures r.Accept? ==> r.value == Day(ResolveDate(text.value, today).value)
  {
    match text
    case None => Raise
    case Some(t) =>
      match ResolveDate(t, today)
      case Some(d) => Accept(Day(d))
      case None => Reject
  }

  /** `datetime.strptime(text.strip(), "%H:%M")` succeeded; the stripped text is what is kept. */
  function CheckTime(text: string): (r: Option<string>)
    ensures r.Some? ==> r.value == Strip(text) && ParseHourMinute(Strip(text)).Some?
    ensures r.None? ==> ParseHourMinute(Strip(text)).None?
  {
    var t := Strip(text);
    if ParseHourMinute(t).Some? then Some(t) else None
  }

  /**
   * `event_time`: the exact label takes the earlier time as it is; otherwise a missing text
   * raises and a text that is not `HH:MM` re-prompts.
   */
  function TimeReading(text: Option<string>, last: Option<Previous>): (r: Reading)
    ensures last.Some? && text == Some(TimeLabel(last.value.time)) ==> r == Accept(OfText(last.value.time))
    ensures !(last.Some? && text == Some(TimeLabel(last.value.time))) ==>
      && (r.Raise? <==> text.None?)
      && (r.Accept? <==> text.Some? && CheckTime(text.value).Some?)
      && (r.Accept? ==> r.value == Text(Strip(text.value)))
  {
    if last.Some? && text == Some(TimeLabel(last.value.time)) then Accept(OfText(last.value.time))
    else if text.None? then Raise
    else match CheckTime(text.value)
      case Some(t) => Accept(Text(t))
      case None => Reject
  }

  // ---------------------------------------------------------------- skipping the poster

  /** `DASH_SYMBOLS`: hyphen-minus, em dash, en dash, minus sign, non-breaking hyphen. */
  predicate IsDash(c: char) {
    c == '-' || c == '\U{2014}' || c == '\U{2013}' || c == '\U{2212}' || c == '\U{2011}'
  }

  /** `is_skip_poster`: the stripped text is not empty and consists of dashes only. */
  predicate IsSkipPoster(text: string) {
    var stripped := Strip(text);
    stripped != [] && forall i :: 0 <= i < |stripped| ==> IsDash(stripped[i])
  }

  /** A text that is a run of dashes with whitespace before and after it. */
  predicate DashRunAt(text: string, a: nat, b: nat) {
    && a < b <= |text|
    && (forall i :: a <= i < b ==> IsDash(text[i]))
    && (forall i :: 0 <= i < a ==> IsSpace(text[i]))
    && (forall i :: b <= i < |text| ==> IsSpace(text[i]))
  }

  lemma SkipPosterGivesRun(text: string)
    requires IsSkipPoster(text)
    ensures DashRunAt(text, SkipSpaces(text, 0), SkipSpaces(text, 0) + |Strip(text)|)
  {
    var k := SkipSpaces(text, 0);
    var e := SkipSpacesBack(text, |text|);
    var r := Strip(text);
    assert k < |text| && r == text[k..e];
    forall i | k <= i < e ensures IsDash(text[i]) {
      assert text[i] == r[i - k];
    }
  }

  lemma RunGivesSkipPoster(text: string, a: nat, b: nat)
    requires DashRunAt(text, a, b)
    ensures IsSkipPoster(text)
  {
    DashIsNotSpace(text[a]);
    DashIsNotSpace(text[b - 1]);
    assert SkipSpaces(text, 0) == a;
    assert SkipSpacesBack(text, |text|) == b;
    var r := Strip(text);
    assert r == text[a..b];
    forall i | 0 <= i < |r| ensures IsDash(r[i]) {
      assert r[i] == text[a + i];
    }
  }

  /**
   * A text skips the poster exactly when it is one non-empty run of dashes, possibly surrounded
   * by whitespace: "-", " — " and "--" skip, "" and "- -" do not.
   */
  lemma SkipPosterIsDashRun(text: string)
    ensures IsSkipPoster(text) <==> exists a: nat, b: nat :: DashRunAt(text, a, b)
  {
    if IsSkipPoster(text) {
      SkipPosterGivesRun(text);
    }
    if exists a: nat, b: nat :: DashRunAt(text, a, b) {
      var a: nat, b: nat :| DashRunAt(text, a, b);
      RunGivesSkipPoster(text, a, b);
    }
  }

  lemma DashIsNotSpace(c: char)
    requires IsDash(c)
    ensures !IsSpace(c)
  {
  }

  // ---------------------------------------------------------------- the dialogue

  /** A message sent to the bot: its text, if any, and whether it carries a photo. */
  datatype Message = Message(text: Option<string>, photo: bool)

  /** What a handler does with the dialogue. */
  datatype Answer =
    | Advanced(offer: Option<string>)  // moved one step on; the autofill label offered with the next question
    | Reprompted                       // asked again; nothing stored
    | Raised                           // an exception escaped the handler
    | Finished                         // the event is created and the dialogue cleared
    | Cancelled
    | Ignored                          // no handler of this dialogue takes the update

  /** The poster pictures on disk, by event id. */
  class PosterFiles {
    var saved: set<int>

    constructor ()
      ensures saved == {}
    {
      saved := {};
    }
  }

  /** The FSM context of one admin chat: the current step and the collected data. */
  class Session {
    var state: Option<Step>
    var data: map<string, Value>

    predicate Valid()
      reads this
    {
      WellTyped(data) && (state == Some(AskPoster) ==> "event_id" in data)
    }

    constructor ()
      ensures Valid() && state == None && data == map[]
    {
      state := None;
      data := map[];
    }

    /** `start_new_event`: a fresh dialogue at the name step. */
    method Start()
      modifies this
      ensures Valid() && state == Some(AskName) && data == map[]
    {
      data := map[];
      state := Some(AskName);
    }

    /** `cancel_event`: clears the dialogue from any step. */
    method Cancel() returns (a: Answer)
      modifies this
      ensures Valid() && state == None && data == map[] && a == Cancelled
    {
      data := map[];
      state := None;
      a := Cancelled;
    }

    /** `event_name`: any reply is the name. */
    method OnName(text: Option<string>) returns (a: Answer)
      requires Valid()
      modifies this
      ensures Valid()
      ensures data == old(data)["name" := OfText(text)] && state == Some(AskDescription) && a == Advanced(None)
    {
      data := data["name" := OfText(text)];
      state := Some(AskDescription);
      a := Advanced(None);
    }

    /** `event_description`: any reply is the description; the price autofill is offered. */
    method OnDescription(db: Db, text: Option<string>, env: Env) returns (a: Answer)
      requires Valid()
      modifies this
      ensures Valid()
      ensures data == old(data)["description" := OfText(text)] && state == Some(AskPrice)
      ensures a == Advanced(PriceOffer(LastEvent(db.events), env))
    {
      data := data["description" := OfText(text)];
      a := Advanced(PriceOffer(LastEvent(db.events), env));
      state := Some(AskPrice);
    }

    /** `event_price`. */
    method OnPrice(db: Db, text: Option<string>, env: Env) returns (a: Answer)
      requires Valid()
      modifies this
      ensures Valid()
      ensures match PriceReading(text, LastEvent(db.events), env)
        case Raise => a == Raised && state == old(state) && data == old(data)
        case Reject => a == Reprompted && state == old(state) && data == old(data)
        case Accept(v) => (data == old(data)["price" := v] && state == Some(AskAddress)
          && a == Advanced(AddressOffer(LastEvent(db.events))))
    {
      var last := LastEvent(db.events);
      match PriceReading(text, last, env)
      case Raise => a := Raised;
      case Reject => a := Reprompted;
      case Accept(v) =>
        data := data["price" := v];
        a := Advanced(AddressOffer(last));
        state := Some(AskAddress);
    }

    /** `event_address`: always advances; the capacity autofill is offered. */
    method OnAddress(db: Db, text: Option<string>) returns (a: Answer)
      requires Valid()
      modifies this
      ensures Valid()
      ensures data == old(data)["address" := AddressReading(text, LastEvent(db.events))]
      ensures state == Some(AskMax) && a == Advanced(MaxOffer(LastEvent(db.events)))
    {
      var last := LastEvent(db.events);
      data := data["address" := AddressReading(text, last)];
      a := Advanced(MaxOffer(last));
      state := Some(AskMax);
    }

    /** `event_max`. */
    method OnMax(db: Db, text: Option<string>) returns (a: Answer)
      requires Valid()
      modifies this
      ensures Valid()
      ensures match MaxReading(text, LastEvent(db.events))
        case Raise => a == Raised && state == old(state) && data == old(data)
        case Reject => a == Reprompted && state == old(state) && data == old(data)
        case Accept(v) => data == old(data)["max_participants" := v] && state == Some(AskDate) && a == Advanced(None)
    {
      match MaxReading(text, LastEvent(db.events))
      case Raise => a := Raised;
      case Reject => a := Reprompted;
      case Accept(v) =>
        data := data["max_participants" := v];
        a := Advanced(None);
        state := Some(AskDate);
    }

    /** `event_date`; the time autofill is offered. */
    method OnDate(db: Db, text: Option<string>, env: Env) returns (a: Answer)
      requires Valid() && ValidDate(env.today)
      modifies this
      ensures Valid()
      ensures match DateReading(text, env.today)
        case Raise => a == Raised && state == old(state) && data == old(data)
        case Reject => a == Reprompted && state == old(state) && data == old(data)
        case Accept(v) => (data == old(data)["date" := v] && state == Some(AskTime)
          && a == Advanced(TimeOffer(LastEvent(db.events))))
    {
      match DateReading(text, env.today)
      case Raise => a := Raised;
      case Reject => a := Reprompted;
      case Accept(v) =>
        data := data["date" := v];
        a := Advanced(TimeOffer(LastEvent(db.events)));
        state := Some(AskTime);
    }

    /**
     * Stores the time, then `save_event`: with every field collected the event row is inserted
     * and the dialogue moves to the poster; with a field missing the KeyError escapes after the
     * time has been stored.
     */
    method StoreTimeAndSave(db: Db, v: Value) returns (a: Answer)
      requires Valid() && db.Valid() && TextLike(v)
      modifies this, db
      ensures Valid() && db.Valid()
      ensures db.registrations == old(db.registrations) && db.users == old(db.users) && db.logs == old(db.logs)
      ensures var stored := old(data)["time" := v];
        match RowFromData(stored, NextId(old(db.events)))
        case None => a == Raised && state == old(state) && data == stored && db.events == old(db.events)
        case Some(row) => (db.events == old(db.events) + [row] && data == stored["event_id" := Whole(row.id)]
          && state == Some(AskPoster) && a == Advanced(None))
    {
      data := data["time" := v];
      var id := SaveEvent(db, data);
      if id.None? {
        return Raised;
      }
      data := data["event_id" := Whole(id.value)];
      a := Advanced(None);
      state := Some(AskPoster);
    }

    /** `event_time`. */
    method OnTime(db: Db, text: Option<string>) returns (a: Answer)
      requires Valid() && db.Valid()
      modifies this, db
      ensures Valid() && db.Valid()
      ensures db.registrations == old(db.registrations) && db.users == old(db.users) && db.logs == old(db.logs)
      ensures match TimeReading(text, LastEvent(old(db.events)))
        case Raise => a == Raised && state == old(state) && data == old(data) && db.events == old(db.events)
        case Reject => a == Reprompted && state == old(state) && data == old(data) && db.events == old(db.events)
        case Accept(v) =>
          var stored := old(data)["time" := v];
          match RowFromData(stored, NextId(old(db.events)))
          case None => a == Raised && state == old(state) && data == stored && db.events == old(db.events)
          case Some(row) => (db.events == old(db.events) + [row] && data == stored["event_id" := Whole(row.id)]
            && state == Some(AskPoster) && a == Advanced(None))
      ensures a.Advanced? || a.Reprompted? || a.Raised?
      ensures a.Advanced? ==> state == Some(AskPoster)
      ensures !a.Advanced? ==> state == old(state) && db.events == old(db.events)
      ensures a.Reprompted? ==> data == old(data)
      ensures a.Advanced? ==> |db.events| == |old(db.events)| + 1 && db.events[..|old(db.events)|] == old(db.events)
    {
      match TimeReading(text, LastEvent(db.events))
      case Raise => a := Raised;
      case Reject => a := Reprompted;
      case Accept(v) => a := StoreTimeAndSave(db, v);
    }

    /**
     * `event_poster`: a photo is saved as the event's poster, a dash-only text removes any
     * earlier poster; either ends the dialogue. Anything else re-prompts.
     */
    method OnPoster(posters: PosterFiles, msg: Message) returns (a: Answer)
      requires Valid() && state == Some(AskPoster)
      modifies this, posters
      ensures Valid()
      ensures var id := old(data)["event_id"].whole;
        if msg.photo then
          posters.saved == old(posters.saved) + {id} && state == None && data == map[] && a == Finished
        else if msg.text.Some? && IsSkipPoster(msg.text.value) then
          posters.saved == old(posters.saved) - {id} && state == None && data == map[] && a == Finished
        else
          posters.saved == old(posters.saved) && state == old(state) && data == old(data) && a == Reprompted
    {
      var id := data["event_id"].whole;
      if msg.photo {
        posters.saved := posters.saved + {id};
      } else if msg.text.Some? && IsSkipPoster(msg.text.value) {
        posters.saved := posters.saved - {id};
      } else {
        return Reprompted;
      }
      data := map[];
      state := None;
      a := Finished;
    }

    /**
     * The message router of the dialogue: the handler of the current step takes the message;
     * with no step set no handler of the dialogue does.
     */
    method OnMessage(db: Db, posters: PosterFiles, msg: Message, env: Env) returns (a: Answer)
      requires Valid() && db.Valid() && ValidDate(env.today)
      modifies this, db, posters
      ensures Valid() && db.Valid()
      ensures db.registrations == old(db.registrations) && db.users == old(db.users) && db.logs == old(db.logs)
      ensures old(state).None? ==> a == Ignored && state == old(state) && data == old(data)
      ensures a.Advanced? ==> old(state).Some? && state == NextStep(old(state).value)
      ensures a.Reprompted? || a.Ignored? ==> state == old(state) && data == old(data)
      ensures a.Raised? ==> state == old(state)
      ensures a.Finished? ==> old(state) == Some(AskPoster) && state == None && data == map[]
      ensures db.events == old(db.events) || (old(state) == Some(AskTime) && state == Some(AskPoster)
        && |db.events| == |old(db.events)| + 1 && db.events[..|old(db.events)|] == old(db.events))
      ensures old(state) != Some(AskPoster) ==> posters.saved == old(posters.saved)
    {
      if state.None? {
        return Ignored;
      }
      if state.value == AskTime {
        a := OnTime(db, msg.text);
      } else if state.value == AskPoster {
        a := OnPoster(posters, msg);
      } else {
        a := OnFieldMessage(db, msg, env);
      }
    }

    /** The steps before the time step: each stores at most its own field and reads the tables only. */
    method OnFieldMessage(db: Db, msg: Message, env: Env) returns (a: Answer)
      requires Valid() && ValidDate(env.today)
      requires state.Some? && state.value != AskTime && state.value != AskPoster
      modifies this
      ensures Valid()
      ensures a.Advanced? || a.Reprompted? || a.Raised?
      ensures a.Advanced? ==> state == NextStep(old(state).value)
      ensures a.Reprompted? ==> state == old(state) && data == old(data)
      ensures a.Raised? ==> state == old(state)
    {
      match state.value
      case AskName => a := OnName(msg.text);
      case AskDescription => a := OnDescription(db, msg.text, env);
      case AskPrice => a := OnPrice(db, msg.text, env);
      case AskAddress => a := OnAddress(db, msg.text);
      case AskMax => a := OnMax(db, msg.text);
      case AskDate => a := OnDate(db, msg.text, env);
    }

    // ------------------------------------------------------------ shortcut callbacks
    // These are registered without a state filter: they act in whatever step the chat is in.

    /** `fill_price`: with an earlier event, takes its price and moves to the address step. */
    method FillPrice(db: Db, env: Env) returns (a: Answer)
      requires Valid()
      modifies this
      ensures Valid()
      ensures match LastEvent(db.events)
        case None => a == Ignored && state == old(state) && data == old(data)
        case Some(last) => (data == old(data)["price" := OfPrice(last.price)] && state == Some(AskAddress)
          && a == Advanced(AddressOffer(LastEvent(db.events))))
    {
      var last := LastEvent(db.events);
      if last.None? {
        return Ignored;
      }
      data := data["price" := OfPrice(last.value.price)];
      a := Advanced(AddressOffer(last));
      state := Some(AskAddress);
    }

    /** `fill_address`: takes the earlier address and moves to the capacity step. */
    method FillAddress(db: Db) returns (a: Answer)
      requires Valid()
      modifies this
      ensures Valid()
      ensures match LastEvent(db.events)
        case None => a == Ignored && state == old(state) && data == old(data)
        case Some(last) => (data == old(data)["address" := OfText(last.address)] && state == Some(AskMax)
          && a == Advanced(MaxOffer(LastEvent(db.events))))
    {
      var last := LastEvent(db.events);
      if last.None? {
        return Ignored;
      }
      data := data["address" := OfText(last.value.address)];
      a := Advanced(MaxOffer(last));
      state := Some(AskMax);
    }

    /** `fill_max`: takes the earlier capacity (`int(None)` raises) and moves to the date step. */
    method FillMax(db: Db) returns (a: Answer)
      requires Valid()
      modifies this
      ensures Valid()
      ensures match LastEvent(db.events)
        case None => a == Ignored && state == old(state) && data == old(data)
        case Some(last) =>
          match last.maxParticipants
          case None => a == Raised && state == old(state) && data == old(data)
          case Some(n) => data == old(data)["max_participants" := Whole(n)] && state == Some(AskDate) && a == Advanced(None)
    {
      var last := LastEvent(db.events);
      if last.None? {
        return Ignored;
      }
      if last.value.maxParticipants.None? {
        return Raised;
      }
      data := data["max_participants" := Whole(last.value.maxParticipants.value)];
      a := Advanced(None);
      state := Some(AskDate);
    }

    /** `fill_time`: takes the earlier time, then saves the event as `event_time` does. */
    method FillTime(db: Db) returns (a: Answer)
      requires Valid() && db.Valid()
      modifies this, db
      ensures Valid() && db.Valid()
      ensures db.registrations == old(db.registrations) && db.users == old(db.users) && db.logs == old(db.logs)
      ensures match LastEvent(old(db.events))
        case None => a == Ignored && state == old(state) && data == old(data) && db.events == old(db.events)
        case Some(last) =>
          var stored := old(data)["time" := OfText(last.time)];
          match RowFromData(stored, NextId(old(db.events)))
          case None => a == Raised && state == old(state) && data == stored && db.events == old(db.events)
          case Some(row) => (db.events == old(db.events) + [row] && data == stored["event_id" := Whole(row.id)]
            && state == Some(AskPoster) && a == Advanced(None))
    {
      var last := LastEvent(db.events);
      if last.None? {
        return Ignored;
      }
      a := StoreTimeAndSave(db, OfText(last.value.time));
    }
  }

  // ---------------------------------------------------------------- properties of the checks

  /** Typing the autofill label takes the earlier value verbatim, whatever parsing would say. */
  lemma LabelsTakeEarlierValues(last: Previous, env: Env)
    ensures PriceReading(Some(PriceLabel(last.price, env)), Some(last), env) == Accept(OfPrice(last.price))
    ensures AddressReading(Some(AddressLabel(last.address)), Some(last)) == OfText(last.address)
    ensures TimeReading(Some(TimeLabel(last.time)), Some(last)) == Accept(OfText(last.time))
    ensures MaxReading(Some(MaxLabel(last.maxParticipants)), Some(last))
      == if last.maxParticipants.Some? then Accept(Whole(last.maxParticipants.value)) else Raise
  {
  }

  /** `str(n)` of a positive count is accepted as that count; zero and negatives are not. */
  lemma CountRoundTrip(n: int)
    ensures n > 0 ==> ParseCount(IntToString(n)) == Some(n)
    ensures n <= 0 ==> ParseCount(IntToString(n)).None?
  {
    ParseIntRoundTrip(n);
  }

  /** `HH:MM` as `strftime` writes it is accepted and kept as typed. */
  lemma TimeRoundTrip(h: nat, m: nat)
    requires h < 24 && m < 60
    ensures CheckTime(ZeroPad(h, 2) + ":" + ZeroPad(m, 2)) == Some(ZeroPad(h, 2) + ":" + ZeroPad(m, 2))
  {
    var hs, ms := ZeroPad(h, 2), ZeroPad(m, 2);
    var t := hs + ":" + ms;
    assert t[0] == hs[0] && t[|t| - 1] == ms[1];
    assert IsDigit(hs[0]) && IsDigit(ms[1]);
    StripKeeps(t);
    ParseHourMinuteRoundTrip(h, m);
  }

  lemma SplitDayMonth(a: string, b: string)
    requires AllDigits(a) && AllDigits(b) && a != [] && b != []
    ensures Split(Strip(a + "." + b), '.') == [a, b]
  {
    var t := a + "." + b;
    assert t[0] == a[0] && t[|t| - 1] == b[|b| - 1];
    DigitsHaveNoSpace(a);
    DigitsHaveNoSpace(b);
    assert !IsSpace(t[0]) && !IsSpace(t[|t| - 1]);
    StripKeeps(t);
    assert '.' !in a && '.' !in b;
    SplitJoin([a, b], '.');
    assert Join([a, b], '.') == a + ['.'] + Join([b], '.');
  }

  /** A reply of digits, a dot and digits names that day of that month. */
  lemma DayMonthResolves(a: string, b: string, today: Date)
    requires AllDigits(a) && AllDigits(b) && a != [] && b != [] && ValidDate(today)
    ensures ResolveDate(a + "." + b, today) == PlaceDate(DigitsValue(a), DigitsValue(b), today)
  {
    SplitDayMonth(a, b);
    ParseDigits(a);
    ParseDigits(b);
  }

  /**
   * "29.02" is refused in a year that is not a leap year, and also in a leap year once the day
   * has passed, because the following year is then not a leap year.
   */
  lemma LeapDayRefused(today: Date)
    requires ValidDate(today)
    requires !IsLeap(today.year) || Before(Date(today.year, 2, 29), today)
    ensures ResolveDate("29.02", today).None?
  {
    LeapDayText(today);
    LeapDayPlacement(today);
  }

  lemma LeapDayText(today: Date)
    requires ValidDate(today)
    ensures ResolveDate("29.02", today) == PlaceDate(29, 2, today)
  {
    assert "29.02" == "29" + "." + "02";
    assert DigitsValue("29") == 29 by {
      assert "29"[..1] == "2" && "2"[..0] == "";
    }
    assert DigitsValue("02") == 2 by {
      assert "02"[..1] == "0" && "0"[..0] == "";
    }
    DayMonthResolves("29", "02", today);
  }

  lemma LeapDayPlacement(today: Date)
    requires ValidDate(today)
    requires !IsLeap(today.year) || Before(Date(today.year, 2, 29), today)
    ensures PlaceDate(29, 2, today).None?
  {
    if IsLeap(today.year) {
      LeapYearFollowedByCommonYear(today.year);
      assert DaysInMonth(today.year + 1, 2) == 28;
    } else {
      assert DaysInMonth(today.year, 2) == 28;
    }
  }

  lemma LeapYearFollowedByCommonYear(y: int)
    requires IsLeap(y)
    ensures !IsLeap(y + 1)
  {
    assert y % 4 == 0;
    assert (y + 1) % 4 == 1;
  }
}
