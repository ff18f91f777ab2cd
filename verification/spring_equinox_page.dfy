/** The guards of the spring-equinox landing page
    (src/pages/SpringEquinoxActivity.tsx): the address form validator, the
    vote submission checks and the lottery start guard. */
module SpringEquinoxPage {
  import opened Optional
  import opened Types

  // --- String.prototype.trim ---

  /** The code points `trim` strips: ECMAScript WhiteSpace and
      LineTerminator. */
  predicate IsJsWhitespace(c: char)
  {
    IsWhitespaceCode(c as int)
  }

  predicate IsWhitespaceCode(n: int)
  {
    || 0x09 <= n <= 0x0D          // tab, line feed, vertical tab, form feed, carriage return
    || n == 0x20 || n == 0xA0     // space, no-break space
    || n == 0x1680
    || 0x2000 <= n <= 0x200A      // en quad .. hair space
    || n == 0x2028 || n == 0x2029 // line and paragraph separators
    || n == 0x202F || n == 0x205F
    || n == 0x3000                // ideographic space
    || n == 0xFEFF                // byte order mark
  }

  function TrimStart(s: string): (r: string)
    ensures |r| <= |s| && r == s[|s| - |r|..]
    ensures forall i :: 0 <= i < |s| - |r| ==> IsJsWhitespace(s[i])
    ensures |r| > 0 ==> !IsJsWhitespace(r[0])
    decreases |s|
  {
    if |s| > 0 && IsJsWhitespace(s[0]) then TrimStart(s[1..]) else s
  }

  function TrimEnd(s: string): (r: string)
    ensures |r| <= |s| && r == s[..|r|]
    ensures |s| > 0 && !IsJsWhitespace(s[0]) ==> |r| > 0
    ensures forall i :: |r| <= i < |s| ==> IsJsWhitespace(s[i])
    ensures |r| > 0 ==> !IsJsWhitespace(r[|r| - 1])
    decreases |s|
  {
    if |s| > 0 && IsJsWhitespace(s[|s| - 1]) then TrimEnd(s[..|s| - 1]) else s
  }

  ghost predicate InfixAt(r: string, s: string, i: int)
  {
    0 <= i <= |s| - |r| && r == s[i..i + |r|]
  }

  /** `s.trim()`: the largest infix with no whitespace at either end. */
  function Trim(s: string): (r: string)
    ensures exists i :: InfixAt(r, s, i)
                        && (forall j :: 0 <= j < i ==> IsJsWhitespace(s[j]))
                        && (forall j :: i + |r| <= j < |s| ==> IsJsWhitespace(s[j]))
    ensures |r| > 0 ==> !IsJsWhitespace(r[0]) && !IsJsWhitespace(r[|r| - 1])
  {
    var t := TrimStart(s);
    var u := TrimEnd(t);
    assert t == s[|s| - |t|..];
    assert u == t[..|u|];
    assert s[|s| - |t|..][..|u|] == s[|s| - |t|..|s| - |t| + |u|];
    assert InfixAt(u, s, |s| - |t|);
    u
  }

  /** `!s.trim()`: the field is blank. */
  predicate Blank(s: string)
  {
    Trim(s) == ""
  }

  /** A field is blank exactly when every character is whitespace. */
  lemma BlankIffAllWhitespace(s: string)
    ensures Blank(s) <==> forall i :: 0 <= i < |s| ==> IsJsWhitespace(s[i])
  {
  }

  // --- The mobile-number pattern /^1[3-9]\d{9}$/ ---

  /** One position of an anchored pattern without quantifiers other than a
      fixed repeat: a literal or a character range. */
  datatype CharClass = Lit(c: char) | Range(lo: char, hi: char)

  predicate InClass(k: CharClass, c: char)
  {
    match k
    case Lit(l) => c == l
    case Range(lo, hi) => lo <= c <= hi
  }

  /** `^…$` with every position a single character (no `m` flag, so `$`
      is the end of input). */
  predicate Matches(p: seq<CharClass>, s: string)
    decreases |p|
  {
    if |p| == 0 then |s| == 0
    else |s| > 0 && InClass(p[0], s[0]) && Matches(p[1..], s[1..])
  }

  /** `1`, then `[3-9]`, then `\d{9}`; `\d` without the `u` flag is 0-9. */
  const Digit: CharClass := Range('0', '9')
  const MobilePattern: seq<CharClass> :=
    [Lit('1'), Range('3', '9'), Digit, Digit, Digit, Digit, Digit, Digit, Digit, Digit, Digit]

  /** The intended phone number shape, stated directly. */
  ghost predicate IsMobileNumber(s: string)
  {
    && |s| == 11
    && s[0] == '1'
    && '3' <= s[1] <= '9'
    && forall i :: 2 <= i < 11 ==> '0' <= s[i] <= '9'
  }

  lemma {:induction false} MatchesPointwise(p: seq<CharClass>, s: string)
    ensures Matches(p, s) <==> |s| == |p| && forall i :: 0 <= i < |p| ==> InClass(p[i], s[i])
    decreases |p|
  {
    if |p| > 0 && |s| > 0 {
      MatchesPointwise(p[1..], s[1..]);
      if |s| == |p| && forall i :: 0 <= i < |p| ==> InClass(p[i], s[i]) {
        assert forall i :: 0 <= i < |p| - 1 ==> InClass(p[1..][i], s[1..][i]) by {
          forall i | 0 <= i < |p| - 1 ensures InClass(p[1..][i], s[1..][i]) {
            assert InClass(p[i + 1], s[i + 1]);
          }
        }
      }
      if Matches(p, s) {
        forall i | 0 <= i < |p| ensures InClass(p[i], s[i]) {
          if i > 0 {
            assert InClass(p[1..][i - 1], s[1..][i - 1]);
          }
        }
      }
    }
  }

  /** The regular expression accepts exactly the 11-character numbers. */
  lemma MobilePatternMeaning(s: string)
    ensures Matches(MobilePattern, s) <==> IsMobileNumber(s)
  {
    MatchesPointwise(MobilePattern, s);
    assert |MobilePattern| == 11;
    assert MobilePattern[0] == Lit('1') && MobilePattern[1] == Range('3', '9');
    assert forall i :: 2 <= i < 11 ==> MobilePattern[i] == Range('0', '9');
  }

  /** The pattern is tested on the untrimmed text, so surrounding whitespace
      makes an otherwise valid number fail. */
  lemma PaddedPhoneRejected(s: string)
    requires |s| > 0 && (IsJsWhitespace(s[0]) || IsJsWhitespace(s[|s| - 1]))
    ensures !Matches(MobilePattern, s)
  {
    MobilePatternMeaning(s);
  }

  // --- The address form ---

  const NameRequired: string := "请输入收货人姓名"
  const PhoneRequired: string := "请输入手机号码"
  const PhoneMalformed: string := "手机号格式不正确"
  const AddressRequired: string := "请输入详细地址"

  /** The error messages by field; `None` is a field without error. */
  datatype FormErrors = FormErrors(name: Option<string>, phone: Option<string>, address: Option<string>)

  function Errors(form: Address): (r: FormErrors)
    ensures r.name.Some? <==> Blank(form.name)
    ensures r.name.Some? ==> r.name.value == NameRequired
    ensures Blank(form.phone) ==> r.phone == Some(PhoneRequired)
    ensures !Blank(form.phone) ==> (r.phone.None? <==> IsMobileNumber(form.phone))
    ensures !Blank(form.phone) && r.phone.Some? ==> r.phone.value == PhoneMalformed
    ensures r.address.Some? <==> Blank(form.address)
    ensures r.address.Some? ==> r.address.value == AddressRequired
  {
    MobilePatternMeaning(form.phone);
    FormErrors(
      if Blank(form.name) then Some(NameRequired) else None,
      if Blank(form.phone) then Some(PhoneRequired)
      else if !Matches(MobilePattern, form.phone) then Some(PhoneMalformed)
      else None,
      if Blank(form.address) then Some(AddressRequired) else None)
  }

  /** `validate`: the errors to show, and whether there are none. */
  function Validate(form: Address): (r: (FormErrors, bool))
    ensures r.0 == Errors(form)
    ensures r.1 <==> r.0.name.None? && r.0.phone.None? && r.0.address.None?
    ensures r.1 <==> !Blank(form.name) && IsMobileNumber(form.phone) && !Blank(form.address)
  {
    var e := Errors(form);
    MobileIsNotBlank(form.phone);
    (e, e.name.None? && e.phone.None? && e.address.None?)
  }

  lemma MobileIsNotBlank(s: string)
    ensures IsMobileNumber(s) ==> !Blank(s)
  {
    if IsMobileNumber(s) {
      assert s[0] as int == 0x31;
      assert !IsJsWhitespace(s[0]);
      BlankIffAllWhitespace(s);
    }
  }

  /** `handleSubmit`: the form reaches `onSubmit` only when it validates. */
  function HandleSubmit(form: Address): (r: Option<Address>)
    ensures r.Some? <==> !Blank(form.name) && IsMobileNumber(form.phone) && !Blank(form.address)
    ensures r.Some? ==> r.value == form
  {
    if Validate(form).1 then Some(form) else None
  }

  // --- Voting ---

  /** The free-text option, which needs a comment. */
  const RecommendOptionId: string := "5"
  const ChooseFirst: string := "请先选择一个选项"
  const EnterRecommendation: string := "请输入您的推荐"

  datatype VoteCheck = Rejected(message: string) | Accepted

  /** `submitVote`'s guards before the simulated submission. */
  function SubmitVote(selected: Option<string>, comment: string): (r: VoteCheck)
    ensures r == Rejected(ChooseFirst) <==> selected.None? || selected.value == ""
    ensures r == Rejected(EnterRecommendation) <==>
              selected.Some? && selected.value == RecommendOptionId && Blank(comment)
    ensures r.Accepted? <==>
              selected.Some? && selected.value != "" && !(selected.value == RecommendOptionId && Blank(comment))
  {
    if selected.None? || selected.value == "" then Rejected(ChooseFirst)
    else if selected.value == RecommendOptionId && Blank(comment) then Rejected(EnterRecommendation)
    else Accepted
  }

  /** `handleVote`: selection is frozen once voted or while drawing. */
  function HandleVote(selected: Option<string>, hasVoted: bool, isDrawing: bool, optionId: string): (r: Option<string>)
    ensures hasVoted || isDrawing ==> r == selected
    ensures !(hasVoted || isDrawing) ==> r == Some(optionId)
  {
    if hasVoted || isDrawing then selected else Some(optionId)
  }

  /** Whether the submit button is clickable. */
  predicate SubmitEnabled(isSubmitting: bool, selected: Option<string>, comment: string)
    ensures SubmitEnabled(isSubmitting, selected, comment) ==> !isSubmitting
    ensures selected == Some(RecommendOptionId) ==>
              (SubmitEnabled(isSubmitting, selected, comment) <==> !isSubmitting && !Blank(comment))
    ensures selected != Some(RecommendOptionId) ==>
              (SubmitEnabled(isSubmitting, selected, comment) <==> !isSubmitting)
  {
    !isSubmitting && !(selected == Some(RecommendOptionId) && Blank(comment))
  }

  /** With a choice made, a clickable submit button always passes the
      guards: the button and `submitVote` agree on the comment rule. */
  lemma EnabledSubmitIsAccepted(isSubmitting: bool, selected: Option<string>, comment: string)
    requires SubmitEnabled(isSubmitting, selected, comment)
    requires selected.Some? && selected.value != ""
    ensures SubmitVote(selected, comment) == Accepted
  {
  }

  // --- Lottery ---

  datatype LotteryStatus = Idle | Drawing | Won | AddressGiven

  datatype LotteryState = LotteryState(status: LotteryStatus, isDrawing: bool)

  /** `startLottery`: ignored while a draw runs or once the prize is won or
      claimed; otherwise the draw starts. */
  function StartLottery(l: LotteryState): (r: LotteryState)
    ensures l.isDrawing || l.status == Won || l.status == AddressGiven ==> r == l
    ensures !(l.isDrawing || l.status == Won || l.status == AddressGiven) ==> r == l.(isDrawing := true)
  {
    if l.isDrawing || l.status == Won || l.status == AddressGiven then l else l.(isDrawing := true)
  }

  /** The draw's timer firing: the prize is won. */
  function DrawFinished(l: LotteryState): (r: LotteryState)
    ensures r.status == Won && !r.isDrawing
  {
    LotteryState(Won, false)
  }

  /** `submitAddress`, reached from a validated address form. */
  function AddressSubmitted(l: LotteryState): (r: LotteryState)
    ensures r.status == AddressGiven && r.isDrawing == l.isDrawing
  {
    l.(status := AddressGiven)
  }

  /** A started draw cannot be started again, and once the draw has
      finished (and after the address is given) the start button does
      nothing: one prize per visit. */
  lemma NoSecondDraw(l: LotteryState)
    ensures StartLottery(StartLottery(l)) == StartLottery(l)
    ensures StartLottery(DrawFinished(l)) == DrawFinished(l)
    ensures StartLottery(AddressSubmitted(DrawFinished(l))) == AddressSubmitted(DrawFinished(l))
  {
  }
}
