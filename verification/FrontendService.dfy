/** Printing and parsing of "service:port" references. */
module FrontendService {
  import opened JsonValues
  import opened Texts

  datatype ServiceRef = ServiceRef(serviceName: string, servicePort: Option<int>)

  function DigitValue(c: char): nat
    requires IsDigit(c)
  {
    (c as int) - ('0' as int)
  }

  function DigitsValue(s: string): nat
    requires forall c <- s :: IsDigit(c)
  {
    if s == "" then 0
    else
      assert s[|s| - 1] in s;
      10 * DigitsValue(s[..|s| - 1]) + DigitValue(s[|s| - 1])
  }

  function LeadingDigits(s: string): (d: string)
    ensures forall c <- d :: IsDigit(c)
  {
    if s == "" || !IsDigit(s[0]) then "" else [s[0]] + LeadingDigits(s[1..])
  }

  /** Number.parseInt with radix 10: leading white space, a sign, then as many digits as there are; None is NaN. */
  function ParseInt(s: string): Option<int> {
    var t := TrimLeft(s);
    var negative := t != "" && t[0] == '-';
    var digits := LeadingDigits(if t != "" && (t[0] == '-' || t[0] == '+') then t[1..] else t);
    if digits == "" then None else Some((if negative then -1 else 1) * DigitsValue(digits))
  }

  function UpToColon(s: string): string {
    match IndexOf(s, ':')
    case None => s
    case Some(i) => s[..i]
  }

  /** formatFrontendService. */
  function Format(serviceName: Option<string>, servicePort: Option<int>): Option<string> {
    if serviceName.None? || serviceName.value == "" then None
    else if servicePort.Some? && servicePort.value > 0 then Some(serviceName.value + ":" + ToDecimal(servicePort.value))
    else serviceName
  }

  /** parseFrontendService: the text up to the first ':' and between the first and the second. */
  function Parse(frontendService: Option<string>): Option<ServiceRef> {
    if frontendService.None? || frontendService.value == "" then None
    else
      var s := frontendService.value;
      var serviceName := UpToColon(s);
      if serviceName == "" then None
      else if serviceName == s then Some(ServiceRef(s, None))
      else
        var rawServicePort := UpToColon(s[|serviceName| + 1..]);
        match ParseInt(rawServicePort)
        case None => Some(ServiceRef(serviceName, None))
        case Some(port) => Some(ServiceRef(serviceName, if port <= 0 then None else Some(port)))
  }

  lemma {:induction false} DecimalReadsBack(n: nat)
    ensures DigitsValue(ToDecimal(n)) == n
    decreases n
  {
    if n >= 10 {
      DecimalReadsBack(n / 10);
      assert ToDecimal(n)[..|ToDecimal(n)| - 1] == ToDecimal(n / 10);
    }
  }

  lemma {:induction false} AllDigitsLead(s: string)
    requires forall c <- s :: IsDigit(c)
    ensures LeadingDigits(s) == s
    decreases |s|
  {
    if s != "" {
      assert s[0] in s && forall c <- s[1..] :: c in s;
      AllDigitsLead(s[1..]);
      assert s == [s[0]] + s[1..];
    }
  }

  lemma ParseIntReadsBack(n: nat)
    ensures ParseInt(ToDecimal(n)) == Some(n)
  {
    var s := ToDecimal(n);
    assert s[0] in s;
    AllDigitsLead(s);
    DecimalReadsBack(n);
  }

  /** What a name and a port stand for once printed. */
  function Meaning(serviceName: string, servicePort: Option<int>): ServiceRef {
    ServiceRef(serviceName, if servicePort.Some? && servicePort.value > 0 then servicePort else None)
  }

  /** Parsing what was printed gives name and port back exactly for names without ':'. */
  lemma ParseReadsBackExactly(serviceName: string, servicePort: Option<int>)
    requires serviceName != ""
    ensures Parse(Format(Some(serviceName), servicePort)) == Some(Meaning(serviceName, servicePort)) <==> ':' !in serviceName
  {
    var text := Format(Some(serviceName), servicePort).value;
    assert forall k | 0 <= k < |serviceName| :: text[k] == serviceName[k];
    if ':' in serviceName {
      assert ':' !in UpToColon(text);
    } else if servicePort.Some? && servicePort.value > 0 {
      var port := ToDecimal(servicePort.value);
      assert text[|serviceName|] == ':' && IndexOf(text, ':') == Some(|serviceName|);
      assert text[..|serviceName|] == serviceName && text[|serviceName| + 1..] == port;
      assert UpToColon(port) == port by {
        assert forall k | 0 <= k < |port| :: port[k] in port;
      }
      ParseIntReadsBack(servicePort.value);
    } else {
      assert text == serviceName;
    }
  }

  /** Hence printing a parsed reference and parsing it again gives the same reference, for every input. */
  lemma ReprintingIsStable(frontendService: Option<string>)
    ensures var parsed := Parse(frontendService);
            parsed.Some? ==> Parse(Format(Some(parsed.value.serviceName), parsed.value.servicePort)) == parsed
  {
    var parsed := Parse(frontendService);
    if parsed.Some? {
      ParseReadsBackExactly(parsed.value.serviceName, parsed.value.servicePort);
    }
  }

  /** What parsing makes of any text: nothing without a name; otherwise the name is the text up to the first ':', and a
      port is kept exactly when what stands between the first and the second ':' starts with a positive integer. */
  lemma ParseExactly(s: string)
    ensures Parse(Some(s)).None? <==> s == "" || s[0] == ':'
    ensures forall name, rest | s == name + ":" + rest && name != "" && ':' !in name ::
              Parse(Some(s)) == Some(ServiceRef(name, var port := ParseInt(UpToColon(rest)); if port.Some? && port.value > 0 then port else None))
    ensures s != "" && ':' !in s ==> Parse(Some(s)) == Some(ServiceRef(s, None))
    ensures Parse(None).None?
  {
    forall name, rest | s == name + ":" + rest && name != "" && ':' !in name
      ensures UpToColon(s) == name && s[|name| + 1..] == rest
    {
      assert forall k | 0 <= k < |name| :: s[k] == name[k];
      assert s[|name|] == ':';
      assert IndexOf(s, ':') == Some(|name|);
      assert s[..|name|] == name;
    }
    if s != "" && s[0] == ':' {
      assert IndexOf(s, ':') == Some(0);
    }
  }

  lemma {:induction false} SpaceIsSkipped(space: string, text: string)
    requires (forall c <- space :: IsSpace(c)) && (text == "" || !IsSpace(text[0]))
    ensures TrimLeft(space + text) == text
    decreases |space|
  {
    if space == "" {
      assert space + text == text;
    } else {
      assert space[0] in space && forall c <- space[1..] :: c in space;
      assert (space + text)[1..] == space[1..] + text;
      SpaceIsSkipped(space[1..], text);
    }
  }

  lemma {:induction false} DigitsLead(digits: string, rest: string)
    requires (forall c <- digits :: IsDigit(c)) && (rest == "" || !IsDigit(rest[0]))
    ensures LeadingDigits(digits + rest) == digits
    decreases |digits|
  {
    if digits == "" {
      assert digits + rest == rest;
    } else {
      assert digits[0] in digits && forall c <- digits[1..] :: c in digits;
      assert (digits + rest)[1..] == digits[1..] + rest;
      DigitsLead(digits[1..], rest);
      assert digits == [digits[0]] + digits[1..];
    }
  }

  /** Number.parseInt skips white space, takes one sign and as many digits as there are, and ignores what follows; it
      is NaN without a digit there. */
  lemma ParseIntExactly(space: string, sign: string, digits: string, rest: string)
    requires (forall c <- space :: IsSpace(c)) && sign in {"", "+", "-"} && (forall c <- digits :: IsDigit(c))
    requires rest == "" || !IsDigit(rest[0])
    requires digits == "" && sign == "" ==> rest == "" || (!IsSpace(rest[0]) && rest[0] != '+' && rest[0] != '-')
    ensures ParseInt(space + (sign + digits + rest))
         == if digits == "" then None else Some((if sign == "-" then -1 else 1) * DigitsValue(digits))
  {
    var text := sign + digits + rest;
    assert digits != "" ==> digits[0] in digits;
    SpaceIsSkipped(space, text);
    DigitsLead(digits, rest);
    if sign == "" {
      assert text == digits + rest;
    } else {
      assert text[0] == sign[0] && text[1..] == digits + rest;
    }
  }
}
