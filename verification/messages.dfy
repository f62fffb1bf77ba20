/** Normalisation of the caller's conversation into the message list sent
    upstream: the fixed system prompt first, then every caller message with
    its role coerced and its content turned into text. A caller message that
    cannot be normalised (a null entry, or content whose text conversion
    throws) aborts the whole list. */
module Messages {
  import opened Wrappers

  /** The integers a JavaScript number holds exactly: magnitude below 2^53.
      `String()` renders each of them as its plain decimal digits. */
  newtype SafeInt = n: int | -0x1F_FFFF_FFFF_FFFF <= n <= 0x1F_FFFF_FFFF_FFFF

  /** The JavaScript values a caller can put in a message's `role` or
      `content` field, as far as the handler can tell them apart. An object
      (arrays included) is known by what `String()` makes of it: its text, or
      None when the conversion throws (no `toString` or `valueOf` yields a
      primitive). A plain object is `Obj(Some("[object Object]"))`. */
  datatype JsValue = Undefined | Null | Bool(b: bool) | Num(n: SafeInt) | Str(s: string)
                   | Obj(text: Option<string>)

  /** JavaScript truthiness: exactly `undefined`, `null`, `false`, `0` and
      `""` are falsy; every object is truthy. */
  predicate Truthy(v: JsValue): (b: bool)
    ensures !b <==> v in {Undefined, Null, Bool(false), Num(0), Str("")}
  {
    match v
    case Undefined => false
    case Null => false
    case Bool(b) => b
    case Num(n) => n != 0
    case Str(s) => s != ""
    case Obj(_) => true
  }

  /** The `||` operator: the left operand when it is truthy, else the right. */
  function Or(a: JsValue, b: JsValue): (r: JsValue)
    ensures r == a || r == b
    ensures Truthy(r) <==> Truthy(a) || Truthy(b)
  {
    if Truthy(a) then a else b
  }

  /** The decimal digits of a natural number, most significant first. */
  function Digits(n: nat): (r: string)
    ensures IsDigits(r)
    ensures |r| == 1 <==> n < 10
  {
    if n < 10 then [('0' as int + n) as char]
    else Digits(n / 10) + [('0' as int + n % 10) as char]
  }

  /** A non-empty run of decimal digits without a leading zero (other than
      "0" itself). */
  predicate IsDigits(s: string) {
    s != [] && (forall i :: 0 <= i < |s| ==> '0' <= s[i] <= '9') && (|s| > 1 ==> s[0] != '0')
  }

  /** `s` is the decimal rendering of `k`: an optional minus sign, then the
      digits of its magnitude without leading zeros. */
  predicate IsDecimal(s: string, k: int) {
    if k < 0 then |s| > 1 && s[0] == '-' && IsDigits(s[1..]) && DigitsValue(s[1..]) == -k
    else IsDigits(s) && DigitsValue(s) == k
  }

  /** The value of a string of decimal digits. */
  function DigitsValue(s: string): nat
    requires forall i :: 0 <= i < |s| ==> '0' <= s[i] <= '9'
  {
    if s == [] then 0
    else DigitsValue(s[..|s| - 1]) * 10 + (s[|s| - 1] as int - '0' as int)
  }

  /** Reading the digits back gives the number. */
  lemma {:induction false} DigitsRoundTrip(n: nat)
    ensures DigitsValue(Digits(n)) == n
  {
    if n >= 10 {
      DigitsRoundTrip(n / 10);
      var r := Digits(n);
      assert r[..|r| - 1] == Digits(n / 10);
    }
  }

  /** Digits without a leading zero have a value of at least one. */
  lemma {:induction false} LeadingDigitValue(s: string)
    requires s != [] && (forall i :: 0 <= i < |s| ==> '0' <= s[i] <= '9') && s[0] != '0'
    ensures DigitsValue(s) >= 1
  {
    if |s| > 1 {
      LeadingDigitValue(s[..|s| - 1]);
    }
  }

  /** A digit string without leading zeros is the rendering of its value:
      together with DigitsRoundTrip, IsDigits and Digits are in one-to-one
      correspondence, so IsDecimal pins the rendering of a number. */
  lemma {:induction false} CanonicalDigits(s: string)
    requires IsDigits(s)
    ensures Digits(DigitsValue(s)) == s
  {
    if |s| > 1 {
      var init := s[..|s| - 1];
      assert IsDigits(init) by {
        assert init[0] == s[0];
      }
      CanonicalDigits(init);
      assert init[0] == s[0];
      LeadingDigitValue(init);
      var v := DigitsValue(s);
      assert v / 10 == DigitsValue(init) && v % 10 == s[|s| - 1] as int - '0' as int;
      assert s == init + [s[|s| - 1]];
    }
  }

  /** `String(v)`, or None when the conversion throws. */
  function ToText(v: JsValue): (r: Option<string>)
    ensures r.None? <==> v == Obj(None)
    ensures v.Str? ==> r == Some(v.s)
    ensures v.Num? ==> r.Some? && IsDecimal(r.value, v.n as int)
    ensures v == Bool(true) ==> r == Some("true")
    ensures v == Bool(false) ==> r == Some("false")
    ensures v == Null ==> r == Some("null")
    ensures v == Undefined ==> r == Some("undefined")
    ensures v.Obj? ==> r == v.text
    ensures Truthy(v) && !v.Obj? ==> r.Some? && r.value != ""
  {
    match v
    case Undefined => Some("undefined")
    case Null => Some("null")
    case Bool(b) => Some(if b then "true" else "false")
    case Num(n) =>
      var k := n as int;
      var m := if k < 0 then -k else k;
      DigitsRoundTrip(m);
      var s := if k < 0 then "-" + Digits(m) else Digits(m);
      assert k < 0 ==> s[1..] == Digits(m);
      Some(s)
    case Str(s) => Some(s)
    case Obj(text) => text
  }

  /** One entry of the caller's `messages` array: an object with (possibly
      undefined) `role` and `content`, or a null/undefined entry, on which
      reading a property throws. An entry that is a primitive reads as
      `InMessage(Undefined, Undefined)`. */
  datatype InMessage = InMessage(role: JsValue, content: JsValue) | NullEntry

  /** One message as it is sent upstream. */
  datatype ChatMessage = ChatMessage(role: string, content: string)

  /** One caller message as sent upstream, or None when it throws: the role
      is "assistant" exactly when the caller's role is that string and "user"
      otherwise; falsy content becomes the empty string, anything else its
      text. */
  function Normalize(m: InMessage): (r: Option<ChatMessage>)
    ensures r.None? <==> m.NullEntry? || m.content == Obj(None)
    ensures r.Some? ==> (r.value.role == "assistant" <==> m.role == Str("assistant"))
    ensures r.Some? ==> (r.value.role == "user" <==> m.role != Str("assistant"))
    ensures r.Some? && !Truthy(m.content) ==> r.value.content == ""
    ensures r.Some? && Truthy(m.content) ==> Some(r.value.content) == ToText(m.content)
  {
    match m
    case NullEntry => None
    case InMessage(role, content) =>
      var text := ToText(Or(content, Str("")));
      if text.None? then None
      else Some(ChatMessage(if role == Str("assistant") then "assistant" else "user", text.value))
  }

  /** A message that is already normalised, sent again as plain strings,
      comes through unchanged. */
  lemma NormalizeIdempotent(m: InMessage)
    requires Normalize(m).Some?
    ensures var r := Normalize(m).value; Normalize(InMessage(Str(r.role), Str(r.content))) == Some(r)
  {
    var r := Normalize(m).value;
    assert r.role == "assistant" || r.role == "user";
  }

  /** The list sent upstream: the system prompt, then the caller's messages
      normalised one by one, in order; None when any of them throws. */
  function ChatMessages(system: string, messages: seq<InMessage>): (r: Option<seq<ChatMessage>>)
    ensures r.Some? <==> forall i :: 0 <= i < |messages| ==> Normalize(messages[i]).Some?
    ensures r.Some? ==> |r.value| == |messages| + 1 && r.value[0] == ChatMessage("system", system)
    ensures r.Some? ==> forall i :: 0 <= i < |messages| ==> Some(r.value[i + 1]) == Normalize(messages[i])
  {
    if forall i :: 0 <= i < |messages| ==> Normalize(messages[i]).Some? then
      Some([ChatMessage("system", system)]
           + seq(|messages|, i requires 0 <= i < |messages| => Normalize(messages[i]).value))
    else None
  }

  /** Only the first message has the system role: a caller cannot inject a
      system instruction, and every other role is "assistant" or "user". */
  lemma OnlyFirstIsSystem(system: string, messages: seq<InMessage>, k: nat)
    requires ChatMessages(system, messages).Some? && 0 < k <= |messages|
    ensures ChatMessages(system, messages).value[k].role in {"assistant", "user"}
  {
    var r := ChatMessages(system, messages).value;
    assert Some(r[(k - 1) + 1]) == Normalize(messages[k - 1]);
  }

  /** One entry that throws aborts the list, wherever it stands. */
  lemma OneBadEntryAborts(system: string, messages: seq<InMessage>, k: nat)
    requires k < |messages| && (messages[k].NullEntry? || messages[k].content == Obj(None))
    ensures ChatMessages(system, messages) == None
  {
    assert Normalize(messages[k]).None?;
  }
}
