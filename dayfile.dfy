/**
 * The dataset checks shared by the save and upload scripts: the content must
 * parse, be a JSON object, and every key must be a day number 1..365, checked
 * in key order with the first bad key deciding the message.
 */
module DayFile {
  import opened Wrappers
  import opened PyStr
  import opened JsonValue

  const FirstDay := 1
  const LastDay := 365

  const ShapeMessage := "JSON must be an object with day numbers (1-365) as keys"

  function InvalidJsonMessage(detail: string): string {
    "Invalid JSON: " + detail
  }

  function InvalidKeyMessage(key: string): string {
    "Invalid key \"" + key + "\": must be a day number (1-365)"
  }

  function OutOfRangeMessage(day: int): string {
    "Day number " + IntToString(day) + " is out of range (must be 1-365)"
  }

  /** A key the scripts accept: `int(key)` succeeds and lies in 1..365. */
  function IsDayKey(k: string): (r: bool)
    ensures r ==> ParseInt(k) != Some(0) && ParseInt(k) != Some(LastDay + 1)
  {
    ParseInt(k).Some? && FirstDay <= ParseInt(k).value <= LastDay
  }

  /** The message for one key, or None when the key is a day number. */
  function KeyProblem(k: string): (r: Option<string>)
    ensures r.None? <==> IsDayKey(k)
    ensures ParseInt(k).None? ==> r == Some(InvalidKeyMessage(k))
    ensures ParseInt(k).Some? && !IsDayKey(k) ==> r == Some(OutOfRangeMessage(ParseInt(k).value))
  {
    match ParseInt(k)
    case None => Some(InvalidKeyMessage(k))
    case Some(day) => if day < FirstDay || day > LastDay then Some(OutOfRangeMessage(day)) else None
  }

  /** The position of the first key that is not a day number; `|m|` when there is none. */
  function FirstBadKey(m: Members): (i: nat)
    ensures i <= |m|
    ensures forall j :: 0 <= j < i ==> IsDayKey(m[j].0)
    ensures i < |m| ==> !IsDayKey(m[i].0)
  {
    if m == [] then 0
    else if !IsDayKey(m[0].0) then 0
    else
      var i := 1 + FirstBadKey(m[1..]);
      assert forall j :: 1 <= j < i ==> m[j] == m[1..][j - 1];
      i
  }

  /** The outcome of the checks on a parsed content. */
  datatype Checked = Accepted(data: Members) | Rejected(message: string)

  /**
   * `json.loads`, `isinstance(content, dict)` and the key loop, in that
   * order: a text that does not parse, a value that is not an object, and
   * the first key that is not a day number each reject with their message.
   */
  function CheckDataset(p: Parsed): (r: Checked)
    ensures r.Accepted? <==> (p.Parsed? && p.value.JObject?
      && forall i :: 0 <= i < |p.value.members| ==> IsDayKey(p.value.members[i].0))
    ensures r.Accepted? ==> p == Parsed(JObject(r.data))
    ensures p.ParseFailed? ==> r == Rejected(InvalidJsonMessage(p.detail))
    ensures p.Parsed? && !p.value.JObject? ==> r == Rejected(ShapeMessage)
    ensures p.Parsed? && p.value.JObject? && r.Rejected? ==>
      var m := p.value.members;
      var i := FirstBadKey(m);
      i < |m| && Some(r.message) == KeyProblem(m[i].0) && forall j :: 0 <= j < i ==> IsDayKey(m[j].0)
  {
    match p
    case ParseFailed(detail) => Rejected(InvalidJsonMessage(detail))
    case Parsed(v) =>
      if !v.JObject? then Rejected(ShapeMessage)
      else
        var i := FirstBadKey(v.members);
        if i < |v.members| then Rejected(KeyProblem(v.members[i].0).value) else Accepted(v.members)
  }

  /** The decimal rendering of day `n` is accepted exactly for the days 1..365. */
  lemma DayKeyOfDay(n: nat)
    ensures IsDayKey(NatToString(n)) <==> FirstDay <= n <= LastDay
    ensures n == 0 || n > LastDay ==> KeyProblem(NatToString(n)) == Some(OutOfRangeMessage(n))
  {
    ParseNatToString(n);
  }

  /** Every character of `Strip(s)` is a character of `s`. */
  lemma StripKeepsCharacters(s: string)
    ensures forall c :: c in Strip(s) ==> c in s
  {
    var l := TrimLeft(s);
    var t := TrimRight(l);
    TrimLeftSuffix(s);
    TrimRightPrefix(l);
    forall c | c in t ensures c in s {
      var i :| 0 <= i < |t| && t[i] == c;
      assert l[i] == c;
      assert s[|s| - |l| + i] == c;
    }
  }

  /** A key without a single digit is not a number: it is rejected as an invalid key. */
  lemma KeyWithoutDigitIsInvalid(k: string)
    requires forall i :: 0 <= i < |k| ==> !IsDigit(k[i])
    ensures KeyProblem(k) == Some(InvalidKeyMessage(k))
  {
    var t := Strip(k);
    StripKeepsCharacters(k);
    if t != [] {
      var body := if t[0] == '-' || t[0] == '+' then t[1..] else t;
      if body != [] {
        assert body[0] in t;
        assert !IsDigit(body[0]);
      }
    }
  }

  /** An accepted dataset has no entry under the key of day 366. */
  lemma AcceptedHasNoDay366(p: Parsed)
    requires CheckDataset(p).Accepted?
    ensures NatToString(366) !in Keys(CheckDataset(p).data)
  {
    DayKeyOfDay(366);
  }
}
