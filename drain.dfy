/**
 * `MockDrain3.transform`, the template step of both ingestion paths: four fixed
 * rewrites, in the order `user_id=`, `amount=`, `user=`, `ip=`, then a strip.
 * The ingestion worker and the bulk loader carry the same code, so one function
 * models both copies.
 */
module Drain {
  import opened Wrappers
  import opened Strings

  const UserIdKey := "user_id="
  const AmountKey := "amount="
  const UserKey := "user="
  const IpKey := "ip="

  /** The text after the first single space, or nothing when there is none: `" ".join(seg.split(" ")[1:])`. */
  function AfterFirstSpace(seg: string): (r: string)
    ensures r == match Find(seg, " ") case None => "" case Some(j) => seg[j + 1..]
  {
    JoinDropFirst(seg, " ");
    Join(" ", Split(seg, " ")[1..])
  }

  /**
   * The rule for `user_id=`, `user=` and `ip=`: with `parts = t.split(key)`,
   * `parts[0] + key + "<*>" + " " + " ".join(parts[1].split(" ")[1:])`.
   */
  function MaskWord(t: string, key: string): string
    requires |key| > 0
  {
    if !Contains(t, key) then t
    else
      var parts := Split(t, key);
      parts[0] + key + "<*>" + " " + AfterFirstSpace(parts[1])
  }

  /** The rule for `amount=`: `t.split(key)[0] + key + "<*>"`. */
  function MaskRest(t: string, key: string): string
    requires |key| > 0
  {
    if !Contains(t, key) then t else Split(t, key)[0] + key + "<*>"
  }

  /** `MockDrain3.transform(content)`. */
  function Transform(content: string): (r: string)
    ensures r == [] || (!IsSpace(r[0]) && !IsSpace(r[|r| - 1]))
  {
    var t1 := MaskWord(content, UserIdKey);
    var t2 := MaskRest(t1, AmountKey);
    var t3 := MaskWord(t2, UserKey);
    var t4 := MaskWord(t3, IpKey);
    Strip(t4)
  }

  /** The text between the first occurrence of `key` (exclusive) and the next one, or the end. */
  function Segment(t: string, key: string, i: nat): string
    requires |key| > 0 && Find(t, key) == Some(i)
  {
    var rest := t[i + |key|..];
    match Find(rest, key) case None => rest case Some(j) => rest[..j]
  }

  /**
   * What `MaskWord` does, stated by position: the text up to the first `key` is
   * kept, the value after it becomes `<*>` up to the first space of the segment
   * that runs to the next `key`; that segment's remainder after the space is kept,
   * and everything from a second `key` on is dropped.
   */
  lemma MaskWordAt(t: string, key: string, i: nat)
    requires |key| > 0 && Find(t, key) == Some(i)
    ensures MaskWord(t, key) == t[..i] + key + "<*> " + AfterFirstSpace(Segment(t, key, i))
  {
    FirstTwoPieces(t, key, i);
  }

  lemma FirstTwoPieces(t: string, key: string, i: nat)
    requires |key| > 0 && Find(t, key) == Some(i)
    ensures |Split(t, key)| >= 2 && Split(t, key)[0] == t[..i] && Split(t, key)[1] == Segment(t, key, i)
  {
    var rest := t[i + |key|..];
    SplitUnfold(t, key, i);
    SplitHead(rest, key);
  }

  /** `MaskRest` keeps the text before the first `key` and replaces all that follows by one `<*>`. */
  lemma MaskRestAt(t: string, key: string, i: nat)
    requires |key| > 0 && Find(t, key) == Some(i)
    ensures MaskRest(t, key) == t[..i] + key + "<*>"
  {
    SplitUnfold(t, key, i);
    assert Split(t, key)[0] == t[..i];
  }

  /** Text with none of the four keys comes back merely stripped. */
  lemma NoKeysOnlyStrips(content: string)
    requires !Contains(content, UserIdKey) && !Contains(content, AmountKey)
    requires !Contains(content, UserKey) && !Contains(content, IpKey)
    ensures Transform(content) == Strip(content)
  {
  }

  /** Every rule leaves `key` in the result: the mask never removes the key it rewrites. */
  lemma MaskKeepsKey(t: string, key: string)
    requires |key| > 0 && Contains(t, key)
    ensures Contains(MaskWord(t, key), key) && Contains(MaskRest(t, key), key)
  {
    var i := Find(t, key).value;
    MaskWordAt(t, key, i);
    MaskRestAt(t, key, i);
    ContainsAt(MaskWord(t, key), key, i);
    ContainsAt(MaskRest(t, key), key, i);
  }

  /** After the `amount=` rule the text ends in `amount=<*>`: whatever followed the first amount is gone. */
  lemma AmountIsLast(t: string)
    requires Contains(t, AmountKey)
    ensures var r := MaskRest(t, AmountKey); |r| >= 10 && r[|r| - 10..] == AmountKey + "<*>"
  {
    MaskRestAt(t, AmountKey, Find(t, AmountKey).value);
  }

  /**
   * The word rule on `p + key + v + " " + r` with the first `key` right after `p`,
   * a value `v` without spaces and no second `key`: the value becomes `<*>`.
   */
  lemma MaskWordValue(p: string, key: string, v: string, r: string)
    requires |key| > 0 && Find(p + key + v + " " + r, key) == Some(|p|)
    requires ' ' !in v && !Contains(v + " " + r, key)
    ensures MaskWord(p + key + v + " " + r, key) == p + key + "<*> " + r
  {
    var t := p + key + v + " " + r;
    assert t == p + key + (v + " " + r);
    ValueSegment(p, key, v + " " + r);
    MaskWordAt(t, key, |p|);
    SpaceAfterValue(v, r);
  }

  lemma ValueSegment(p: string, key: string, seg: string)
    requires |key| > 0 && Find(p + key + seg, key) == Some(|p|) && !Contains(seg, key)
    ensures (p + key + seg)[..|p|] == p && Segment(p + key + seg, key, |p|) == seg
  {
    var t := p + key + seg;
    assert t[|p| + |key|..] == seg;
  }

  lemma SpaceAfterValue(v: string, r: string)
    requires ' ' !in v
    ensures AfterFirstSpace(v + " " + r) == r
  {
    FindAfterFree(v, " " + r, " ", ' ');
    assert v + " " + r == v + (" " + r);
    assert (v + " " + r)[|v| + 1..] == r;
  }

  /** The amount rule on `p + key + w` with the first `key` right after `p`. */
  lemma MaskRestValue(p: string, key: string, w: string)
    requires |key| > 0 && Find(p + key + w, key) == Some(|p|)
    ensures MaskRest(p + key + w, key) == p + key + "<*>"
  {
    var t := p + key + w;
    MaskRestAt(t, key, |p|);
    assert t[..|p|] == p;
  }

  /** Regrouping a concatenation of three texts. */
  lemma Assoc(a: string, b: string, c: string)
    ensures a + (b + c) == a + b + c
  {
  }

  /**
   * The message of the third sample line, "Slow query detected on
   * table=users duration=500ms", written as the pieces its proofs cut it into.
   */
  const SlowQuery := "Slow query detected on t" + "able" + "=" + "users dura" + "tion" + "=50" + "0" + "ms"

  /** The third sample line's message carries none of the keys and passes unchanged. */
  lemma ExampleUnchanged()
    ensures Transform(SlowQuery) == SlowQuery
  {
    SlowQueryNoUserId();
    SlowQueryNoAmount();
    SlowQueryNoUser();
    SlowQueryNoIp();
    NoKeysOnlyStrips(SlowQuery);
    StripTrimmed(SlowQuery);
  }

  lemma SlowQueryNoUserId()
    ensures !Contains(SlowQuery, UserIdKey)
  {
    MissingChar(SlowQuery, UserIdKey, '_');
  }

  lemma SlowQueryNoAmount()
    ensures !Contains(SlowQuery, AmountKey)
  {
    TooShort("ms", AmountKey);
    SkipAt("Slow query detected on t" + "able" + "=" + "users dura" + "tion" + "=50", "0", "ms", AmountKey);
  }

  lemma SlowQueryNoUser()
    ensures !Contains(SlowQuery, UserKey)
  {
    PiecesNoUser("Slow query detected on t", "able", "=", "users dura", "tion", "=50", "0", "ms");
  }

  lemma PiecesNoUser(a1: string, a2: string, a3: string, a4: string, a5: string, a6: string, a7: string, a8: string)
    requires a1 == "Slow query detected on t" && a2 == "able" && a3 == "=" && a4 == "users dura"
    requires a5 == "tion" && a6 == "=50" && a7 == "0" && a8 == "ms"
    ensures !Contains(a1 + a2 + a3 + a4 + a5 + a6 + a7 + a8, UserKey)
  {
    MissingChar(a6 + a7 + a8, UserKey, 'u');
    SkipAt(a4, a5, a6 + a7 + a8, UserKey);
    SkipAt(a3, "", a4 + a5 + (a6 + a7 + a8), UserKey);
    SkipAt(a1, a2, a3 + "" + (a4 + a5 + (a6 + a7 + a8)), UserKey);
    SlowQueryGroups(a1, a2, a3, a4, a5, a6, a7, a8);
  }

  lemma SlowQueryGroups(a1: string, a2: string, a3: string, a4: string, a5: string, a6: string, a7: string, a8: string)
    ensures a1 + a2 + a3 + a4 + a5 + a6 + a7 + a8 == a1 + a2 + (a3 + "" + (a4 + a5 + (a6 + a7 + a8)))
  {
  }

  lemma SlowQueryNoIp()
    ensures !Contains(SlowQuery, IpKey)
  {
    MissingChar(SlowQuery, IpKey, 'p');
  }

  /** The first sample line's message, "Payment processed for user_id=101 amount=50.00", and its template. */
  const PaymentPrefix := "Payment processed for "
  const PaymentMessage := PaymentPrefix + UserIdKey + "101" + " " + AmountKey + "50.00"
  const PaymentTemplate := PaymentPrefix + UserIdKey + "<*> " + AmountKey + "<*>"

  /** The first sample line: the user id and the amount are masked. */
  lemma ExamplePayment()
    ensures Transform(PaymentMessage) == PaymentTemplate
  {
    PaymentTemplateFor("101", "50.00");
  }

  /**
   * Every message of the payment shape, whatever the user id and the amount (the id
   * without spaces and neither holding `_`), gives the same template.
   */
  lemma PaymentTemplateFor(uid: string, amount: string)
    requires ' ' !in uid && '_' !in uid && '_' !in amount
    ensures Transform(PaymentPrefix + UserIdKey + uid + " " + AmountKey + amount) == PaymentTemplate
  {
    PaymentUserId(uid, amount);
    PaymentAmount(amount);
    PaymentNoUser();
    PaymentNoIp();
    StripTrimmed(PaymentTemplate);
  }

  lemma PaymentUserId(uid: string, amount: string)
    requires ' ' !in uid && '_' !in uid && '_' !in amount
    ensures MaskWord(PaymentPrefix + UserIdKey + uid + " " + AmountKey + amount, UserIdKey)
         == PaymentPrefix + UserIdKey + "<*> " + (AmountKey + amount)
  {
    Assoc(PaymentPrefix + UserIdKey + uid + " ", AmountKey, amount);
    PaymentFindUserId(uid, AmountKey + amount);
    MissingChar(uid + " " + (AmountKey + amount), UserIdKey, '_');
    MaskWordValue(PaymentPrefix, UserIdKey, uid, AmountKey + amount);
  }

  lemma PaymentFindUserId(uid: string, rest: string)
    ensures Find(PaymentPrefix + UserIdKey + uid + " " + rest, UserIdKey) == Some(|PaymentPrefix|)
  {
    var b := UserIdKey + uid + " " + rest;
    assert b[..8] == UserIdKey;
    FindAfterFree(PaymentPrefix, b, UserIdKey, '=');
    Assoc(PaymentPrefix, UserIdKey + uid + " ", rest);
    Assoc(PaymentPrefix, UserIdKey + uid, " ");
    Assoc(PaymentPrefix, UserIdKey, uid);
  }

  lemma PaymentAmount(amount: string)
    ensures MaskRest(PaymentPrefix + UserIdKey + "<*> " + (AmountKey + amount), AmountKey) == PaymentTemplate
  {
    var a := PaymentPrefix + UserIdKey + "<*> ";
    Assoc(a, AmountKey, amount);
    PaymentFindAmount(amount);
    MaskRestValue(a, AmountKey, amount);
  }

  lemma PaymentFindAmount(amount: string)
    ensures Find(PaymentPrefix + UserIdKey + "<*> " + AmountKey + amount, AmountKey)
         == Some(|PaymentPrefix + UserIdKey + "<*> "|)
  {
    var a := PaymentPrefix + UserIdKey + "<*> ";
    PaymentNoEarlyAmount();
    assert AmountKey[..6] == "amount";
    var b := AmountKey + amount;
    assert b[..7] == AmountKey;
    FindAfter(a, b, AmountKey);
    Assoc(a, AmountKey, amount);
  }

  lemma PaymentNoEarlyAmount()
    ensures !Contains(PaymentPrefix + UserIdKey + "<*> " + "amount", AmountKey)
  {
    TooShort("amount", AmountKey);
    SkipAt("=<*> ", "", "amount", AmountKey);
    SkipAt(PaymentPrefix + "u", "ser_id", "=<*> " + "" + "amount", AmountKey);
    assert UserIdKey == "u" + "ser_id" + "=";
    PaymentGroups(PaymentPrefix, "u", "ser_id", "=", "<*> ", "amount");
  }

  lemma PaymentGroups(p: string, a: string, b: string, c: string, d: string, e: string)
    ensures p + (a + b + c) + d + e == p + a + b + (c + d + "" + e)
  {
  }

  lemma PaymentNoUser()
    ensures !Contains(PaymentTemplate, UserKey)
  {
    var y := "=" + "<*> " + AmountKey + "<*>";
    MissingChar(y, UserKey, 's');
    SkipAt(PaymentPrefix + "use", "r_id", y, UserKey);
    assert UserIdKey == "use" + "r_id" + "=";
    PaymentTemplateGroups(PaymentPrefix, "use", "r_id", "=", "<*> ", AmountKey, "<*>");
  }

  lemma PaymentNoIp()
    ensures !Contains(PaymentTemplate, IpKey)
  {
    var y := "id=" + "<*> " + AmountKey + "<*>";
    MissingChar(y, IpKey, 'p');
    SkipAt(PaymentPrefix + "use", "r_", y, IpKey);
    assert UserIdKey == "use" + "r_" + "id=";
    PaymentTemplateGroups(PaymentPrefix, "use", "r_", "id=", "<*> ", AmountKey, "<*>");
  }

  lemma PaymentTemplateGroups(p: string, a: string, b: string, c: string, d: string, e: string, f: string)
    ensures p + (a + b + c) + d + e + f == p + a + b + (c + d + e + f)
  {
  }

  /**
   * The second sample line's message, "Login failed for user=admin ip=192.168.1.5
   * reason=bad_password", and the template it becomes.
   */
  const LoginPrefix := "Login failed for "
  const LoginAddress := "192.168.1.5"
  const LoginReason := "reason" + "=bad" + "_password"
  const LoginMessage := LoginPrefix + UserKey + "admin" + " " + IpKey + LoginAddress + " " + LoginReason
  const LoginTemplate := LoginPrefix + UserKey + "<*> " + IpKey + "<*> " + LoginReason

  /** The second sample line: the user and the address are masked, the reason is kept. */
  lemma ExampleLogin()
    ensures Transform(LoginMessage) == LoginTemplate
  {
    LoginNoUserId();
    LoginNoAmount();
    LoginUser();
    LoginIp();
    StripTrimmed(LoginTemplate);
  }

  lemma LoginNoUserId()
    ensures !Contains(LoginMessage, UserIdKey)
  {
    ReasonNoUserId(LoginPrefix + UserKey + "admin" + " " + IpKey + LoginAddress + " ", "reason", "=bad", "_password");
  }

  lemma ReasonNoUserId(x: string, a: string, b: string, c: string)
    requires '_' !in x && a == "reason" && b == "=bad" && c == "_password"
    ensures !Contains(x + (a + b + c), UserIdKey)
  {
    MissingChar(c, UserIdKey, 'u');
    SkipAt(x + a, b, c, UserIdKey);
    Assoc(x, a + b, c);
    Assoc(x, a, b);
  }

  lemma LoginNoAmount()
    ensures !Contains(LoginMessage, AmountKey)
  {
    MissingChar(LoginMessage, AmountKey, 't');
  }

  /** What follows the user name in the login message. */
  const LoginRest := IpKey + LoginAddress + " " + LoginReason

  lemma LoginUser()
    ensures MaskWord(LoginMessage, UserKey) == LoginPrefix + UserKey + "<*> " + LoginRest
  {
    LoginGroups(LoginPrefix + UserKey + "admin" + " ", IpKey, LoginAddress, " ", LoginReason);
    LoginFindUser();
    MissingChar("admin" + " " + LoginRest, UserKey, 'u');
    MaskWordValue(LoginPrefix, UserKey, "admin", LoginRest);
  }

  lemma LoginGroups(x: string, a: string, b: string, c: string, d: string)
    ensures x + a + b + c + d == x + (a + b + c + d)
  {
  }

  lemma LoginFindUser()
    ensures Find(LoginPrefix + UserKey + "admin" + " " + LoginRest, UserKey) == Some(|LoginPrefix|)
  {
    var b := UserKey + "admin" + " " + LoginRest;
    assert b[..5] == UserKey;
    FindAfterFree(LoginPrefix, b, UserKey, '=');
    Assoc(LoginPrefix, UserKey + "admin" + " ", LoginRest);
    Assoc(LoginPrefix, UserKey + "admin", " ");
    Assoc(LoginPrefix, UserKey, "admin");
  }

  lemma LoginIp()
    ensures MaskWord(LoginPrefix + UserKey + "<*> " + LoginRest, IpKey) == LoginTemplate
  {
    var a := LoginPrefix + UserKey + "<*> ";
    LoginGroups(a, IpKey, LoginAddress, " ", LoginReason);
    LoginFindIp();
    MissingChar(LoginAddress + " " + LoginReason, IpKey, 'i');
    MaskWordValue(a, IpKey, LoginAddress, LoginReason);
  }

  lemma LoginFindIp()
    ensures Find(LoginPrefix + UserKey + "<*> " + IpKey + LoginAddress + " " + LoginReason, IpKey)
         == Some(|LoginPrefix + UserKey + "<*> "|)
  {
    var a := LoginPrefix + UserKey + "<*> ";
    LoginNoEarlyIp();
    var b := IpKey + LoginAddress + " " + LoginReason;
    assert b[..3] == IpKey;
    FindAfter(a, b, IpKey);
    LoginGroups(a, IpKey, LoginAddress, " ", LoginReason);
  }

  lemma LoginNoEarlyIp()
    ensures !Contains(LoginPrefix + UserKey + "<*> " + IpKey[..2], IpKey)
  {
    TooShort("ip", IpKey);
    SkipAt(LoginPrefix + UserKey + "<*>", " ", "ip", IpKey);
    assert "<*> " == "<*>" + " " && IpKey[..2] == "ip";
    Assoc(LoginPrefix + UserKey, "<*>", " ");
  }
}
