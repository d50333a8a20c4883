/**
 * Inline-button payloads and the filters the callback handlers are registered with.
 * A button either carries an event id (`<prefix>:<event_id>`) or is a fixed word; a handler
 * either takes every payload starting with `<prefix>:` or exactly one word. The routing lemma
 * shows that every payload the bot generates is taken by exactly the handler meant for it
 * (and the `event_edit_<field>` payloads, which have no handler, by none).
 */
module Callbacks {
  import opened Wrappers
  import opened Text

  /** Buttons that carry an event id. */
  datatype Action =
    | EventEdit | EventBack | EventUsers | EventDelete | EventDeleteYes | EventDeleteNo
    | EventEditName | EventEditDescription | EventEditPrice | EventEditAddress
    | EventEditMax | EventEditDate | EventEditTime
    | UserRegister | UserCancel | UserIcs | ReminderUnsubscribe

  /** Buttons whose payload is a fixed word. */
  datatype Signal = CancelEvent | PriceFill | AddressFill | MaxFill | TimeFill | DisableNotifications

  datatype Button = WithId(action: Action, id: int) | Plain(signal: Signal)

  /** The text before the colon in a button's payload, as the keyboards write it. */
  function Prefix(a: Action): (p: string)
    ensures p != [] && ':' !in p
  {
    match a
    case EventEdit => "event_edit"
    case EventBack => "event_back"
    case EventUsers => "event_users"
    case EventDelete => "event_delete"
    case EventDeleteYes => "event_delete_yes"
    case EventDeleteNo => "event_delete_no"
    case EventEditName => "event_edit_name"
    case EventEditDescription => "event_edit_description"
    case EventEditPrice => "event_edit_price"
    case EventEditAddress => "event_edit_address"
    case EventEditMax => "event_edit_max"
    case EventEditDate => "event_edit_date"
    case EventEditTime => "event_edit_time"
    case UserRegister => "user_register"
    case UserCancel => "user_cancel"
    case UserIcs => "user_ics"
    case ReminderUnsubscribe => "reminder_unsubscribe"
  }

  function SignalText(s: Signal): (w: string)
    ensures w != [] && ':' !in w
  {
    match s
    case CancelEvent => "cancel_event"
    case PriceFill => "price_fill"
    case AddressFill => "address_fill"
    case MaxFill => "max_fill"
    case TimeFill => "time_fill"
    case DisableNotifications => "reminder_disable_notifications"
  }

  /** `callback_data` of a button: `f"{prefix}:{event_id}"` or the fixed word. */
  function Payload(b: Button): (data: string)
    ensures b.WithId? ==> data == Prefix(b.action) + ":" + IntToString(b.id)
    ensures b.Plain? ==> data == SignalText(b.signal) && ':' !in data
  {
    match b
    case WithId(a, id) => Prefix(a) + ":" + IntToString(id)
    case Plain(s) => SignalText(s)
  }

  // ---------------------------------------------------------------- handlers

  /** Every callback handler of the three routers. */
  datatype Handler =
    | OnEventEdit | OnEventBack | OnEventUsers | OnEventDelete | OnEventDeleteYes | OnEventDeleteNo
    | OnUserRegister | OnUserCancel | OnReminderUnsubscribe | OnUserIcs | OnDisableNotifications
    | OnCancelEvent | OnPriceFill | OnAddressFill | OnMaxFill | OnTimeFill

  /** A handler's filter: `c.data.startswith(text)` or `c.data == text`. */
  datatype Filter = StartsWith(text: string) | Equals(text: string)

  function FilterOf(h: Handler): Filter {
    match h
    case OnEventEdit => StartsWith("event_edit:")
    case OnEventBack => StartsWith("event_back:")
    case OnEventUsers => StartsWith("event_users:")
    case OnEventDelete => StartsWith("event_delete:")
    case OnEventDeleteYes => StartsWith("event_delete_yes:")
    case OnEventDeleteNo => StartsWith("event_delete_no:")
    case OnUserRegister => StartsWith("user_register:")
    case OnUserCancel => StartsWith("user_cancel:")
    case OnReminderUnsubscribe => StartsWith("reminder_unsubscribe:")
    case OnUserIcs => StartsWith("user_ics:")
    case OnDisableNotifications => Equals("reminder_disable_notifications")
    case OnCancelEvent => Equals("cancel_event")
    case OnPriceFill => Equals("price_fill")
    case OnAddressFill => Equals("address_fill")
    case OnMaxFill => Equals("max_fill")
    case OnTimeFill => Equals("time_fill")
  }

  predicate StartsWithText(s: string, p: string) {
    |p| <= |s| && s[..|p|] == p
  }

  predicate Accepts(h: Handler, data: string) {
    match FilterOf(h)
    case StartsWith(p) => StartsWithText(data, p)
    case Equals(w) => data == w
  }

  /** The handler a button is meant for; the per-field edit buttons have none. */
  function Target(b: Button): Option<Handler> {
    match b
    case WithId(a, _) => (
      match a
      case EventEdit => Some(OnEventEdit)
      case EventBack => Some(OnEventBack)
      case EventUsers => Some(OnEventUsers)
      case EventDelete => Some(OnEventDelete)
      case EventDeleteYes => Some(OnEventDeleteYes)
      case EventDeleteNo => Some(OnEventDeleteNo)
      case UserRegister => Some(OnUserRegister)
      case UserCancel => Some(OnUserCancel)
      case UserIcs => Some(OnUserIcs)
      case ReminderUnsubscribe => Some(OnReminderUnsubscribe)
      case _ => None)
    case Plain(s) => (
      match s
      case CancelEvent => Some(OnCancelEvent)
      case PriceFill => Some(OnPriceFill)
      case AddressFill => Some(OnAddressFill)
      case MaxFill => Some(OnMaxFill)
      case TimeFill => Some(OnTimeFill)
      case DisableNotifications => Some(OnDisableNotifications))
  }

  /** The colon-free word a handler is keyed on (the prefix without its colon, or the exact word). */
  function HandlerWord(h: Handler): (w: string)
    ensures ':' !in w
    ensures FilterOf(h).StartsWith? ==> FilterOf(h).text == w + ":"
    ensures FilterOf(h).Equals? ==> FilterOf(h).text == w
  {
    match h
    case OnEventEdit => "event_edit"
    case OnEventBack => "event_back"
    case OnEventUsers => "event_users"
    case OnEventDelete => "event_delete"
    case OnEventDeleteYes => "event_delete_yes"
    case OnEventDeleteNo => "event_delete_no"
    case OnUserRegister => "user_register"
    case OnUserCancel => "user_cancel"
    case OnReminderUnsubscribe => "reminder_unsubscribe"
    case OnUserIcs => "user_ics"
    case OnDisableNotifications => "reminder_disable_notifications"
    case OnCancelEvent => "cancel_event"
    case OnPriceFill => "price_fill"
    case OnAddressFill => "address_fill"
    case OnMaxFill => "max_fill"
    case OnTimeFill => "time_fill"
  }

  /**
   * For colon-free words `p` and `q`, `p + ":" + rest` starts with `q + ":"` exactly when the
   * words are equal: neither colon-terminated prefix can be a proper prefix of the other.
   */
  lemma ColonPrefixes(p: string, q: string, rest: string)
    requires ':' !in p && ':' !in q
    ensures StartsWithText(p + ":" + rest, q + ":") <==> p == q
  {
    var s := p + ":" + rest;
    var t := q + ":";
    if StartsWithText(s, t) {
      if |q| < |p| {
        SharedPrefixAt(s, t, |q|);
        assert false;
      } else if |q| > |p| {
        SharedPrefixAt(s, t, |p|);
        assert false;
      } else {
        assert p == s[..|p|];
      }
    }
  }

  /** No colon-free word starts with a colon-terminated prefix. */
  lemma ColonFreeNoPrefix(w: string, q: string)
    requires ':' !in w
    ensures !StartsWithText(w, q + ":")
  {
    if StartsWithText(w, q + ":") {
      SharedPrefixAt(w, q + ":", |q|);
      assert false;
    }
  }

  lemma SharedPrefixAt(s: string, p: string, k: nat)
    requires StartsWithText(s, p) && k < |p|
    ensures s[k] == p[k]
  {
    assert s[..|p|][k] == s[k];
  }

  predicate ExactHandler(h: Handler) {
    FilterOf(h).Equals?
  }

  /** Which handler is keyed on the word of an action's prefix. */
  lemma ActionWord(a: Action, h: Handler)
    requires !ExactHandler(h)
    ensures Prefix(a) == HandlerWord(h) <==> Target(WithId(a, 0)) == Some(h)
  {
  }

  lemma SignalWord(s: Signal, h: Handler)
    requires ExactHandler(h)
    ensures SignalText(s) == HandlerWord(h) <==> Target(Plain(s)) == Some(h)
  {
  }

  /**
   * Every payload the bot generates is accepted by exactly the handler meant for it, and the
   * per-field edit payloads by no handler at all.
   */
  lemma RoutedToTarget(b: Button, h: Handler)
    ensures Accepts(h, Payload(b)) <==> Target(b) == Some(h)
  {
    match b
    case WithId(a, id) => RoutedWithId(a, id, h);
    case Plain(s) => RoutedPlain(s, h);
  }

  lemma RoutedWithId(a: Action, id: int, h: Handler)
    ensures Accepts(h, Payload(WithId(a, id))) <==> Target(WithId(a, id)) == Some(h)
  {
    if ExactHandler(h) {
      ExactRejectsWithId(a, id, h);
      IdTargetsTakePrefixes(a, id);
    } else {
      assert Target(WithId(a, id)) == Target(WithId(a, 0));
      ColonPrefixes(Prefix(a), HandlerWord(h), IntToString(id));
      ActionWord(a, h);
    }
  }

  /** A payload with an id holds a colon, so no exact-word handler takes it. */
  lemma ExactRejectsWithId(a: Action, id: int, h: Handler)
    requires ExactHandler(h)
    ensures !Accepts(h, Payload(WithId(a, id)))
  {
    var data := Payload(WithId(a, id));
    assert data[|Prefix(a)|] == ':';
    ColonBreaksEquality(data, HandlerWord(h), |Prefix(a)|);
  }

  /** Buttons with an id are meant for prefix handlers only. */
  lemma IdTargetsTakePrefixes(a: Action, id: int)
    ensures Target(WithId(a, id)).Some? ==> !ExactHandler(Target(WithId(a, id)).value)
  {
  }

  lemma ColonBreaksEquality(data: string, w: string, k: nat)
    requires k < |data| && data[k] == ':' && ':' !in w
    ensures data != w
  {
    if k < |w| {
      assert w[k] in w;
    }
  }

  lemma RoutedPlain(s: Signal, h: Handler)
    ensures Accepts(h, Payload(Plain(s))) <==> Target(Plain(s)) == Some(h)
  {
    if ExactHandler(h) {
      SignalWord(s, h);
    } else {
      ColonFreeNoPrefix(Payload(Plain(s)), HandlerWord(h));
      assert Target(Plain(s)) != Some(h);
    }
  }

  // ---------------------------------------------------------------- the id in a payload

  /**
   * `int(call.data.split(":")[1])`: None where Python raises (fewer than two pieces, or a
   * second piece that is not an integer literal).
   */
  function EventIdOf(data: string): (r: Option<int>)
    ensures r.Some? ==> |Split(data, ':')| >= 2 && ParseInt(Split(data, ':')[1]) == r
    ensures r.None? <==> |Split(data, ':')| < 2 || ParseInt(Split(data, ':')[1]).None?
  {
    var parts := Split(data, ':');
    if |parts| < 2 then None else ParseInt(parts[1])
  }

  /** The handler reads back the id the keyboard wrote. */
  lemma EventIdRoundTrip(a: Action, id: int)
    ensures EventIdOf(Payload(WithId(a, id))) == Some(id)
  {
    var p := Prefix(a);
    var d := IntToString(id);
    assert ':' !in d by {
      if ':' in d {
        var k :| 0 <= k < |d| && d[k] == ':';
        IntToStringChars(id, k);
      }
    }
    SplitAfterPiece(p, ':', d);
    SplitNoSeparator(d, ':');
    assert p + ":" + d == p + [':'] + d;
    ParseIntRoundTrip(id);
  }

  lemma IntToStringChars(i: int, k: nat)
    requires k < |IntToString(i)|
    ensures IntToString(i)[k] == '-' || IsDigit(IntToString(i)[k])
  {
    if i < 0 {
      assert IntToString(i) == "-" + NatToString(-i);
      if k > 0 {
        assert IntToString(i)[k] == NatToString(-i)[k - 1];
      }
    }
  }
}
