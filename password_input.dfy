/** The password field with its visibility toggle and strength indicator. The
    component's state (whether the password is shown, the last computed
    strength) is the `Field` object; the change handler forwarded to the
    parent is recorded as the list of values it received. Lengths count
    characters. */
module PasswordInput {
  import opened Js

  datatype Strength = Strength(
    score: int,
    hasLength: bool,
    hasUppercase: bool,
    hasLowercase: bool,
    hasNumber: bool,
    hasSpecialChar: bool)

  /** The characters of the special-character class. */
  const SpecialChars: set<char> := {
    '!', '@', '#', '$', '%', '^', '&', '*', '(', ')', ',', '.', '?', '"', ':', '{', '}', '|', '<', '>' }

  const Palette: seq<string> := ["bg-red-500", "bg-orange-500", "bg-yellow-500", "bg-lime-500", "bg-green-500"]

  const EmptyBar: string := "bg-gray-200"

  const BarCount: nat := 5

  predicate HasCharWhere(s: string, p: char -> bool) {
    exists k :: 0 <= k < |s| && p(s[k])
  }

  function Flags(st: Strength): seq<bool> {
    [st.hasLength, st.hasUppercase, st.hasLowercase, st.hasNumber, st.hasSpecialChar]
  }

  /** How many entries are true. */
  function CountTrue(flags: seq<bool>): (n: nat)
    ensures n <= |flags|
    ensures n == 0 <==> forall k :: 0 <= k < |flags| ==> !flags[k]
  {
    if flags == [] then 0 else (if flags[0] then 1 else 0) + CountTrue(flags[1..])
  }

  /** `checkPasswordStrength`: the five criteria and a score one less than the
      number of truthy values of the strength object; the score field itself
      is 0 at that point, which is falsy and not counted. */
  function CheckPasswordStrength(password: string): (st: Strength)
    ensures st.hasLength <==> |password| >= 8
    ensures st.hasUppercase <==> exists k :: 0 <= k < |password| && IsUpper(password[k])
    ensures st.hasLowercase <==> exists k :: 0 <= k < |password| && IsLower(password[k])
    ensures st.hasNumber <==> exists k :: 0 <= k < |password| && IsDigit(password[k])
    ensures st.hasSpecialChar <==> exists k :: 0 <= k < |password| && password[k] in SpecialChars
    ensures -1 <= st.score <= 4
  {
    var st := Strength(0, |password| >= 8, HasCharWhere(password, IsUpper), HasCharWhere(password, IsLower),
                       HasCharWhere(password, IsDigit), HasCharWhere(password, c => c in SpecialChars));
    var truthy := [st.score != 0] + Flags(st);
    st.(score := CountTrue(truthy) - 1)
  }

  /** The score is the number of criteria met, minus one. */
  lemma {:induction false} ScoreCountsCriteria(password: string)
    ensures var st := CheckPasswordStrength(password);
      st.score + 1 == (if st.hasLength then 1 else 0) + (if st.hasUppercase then 1 else 0)
                      + (if st.hasLowercase then 1 else 0) + (if st.hasNumber then 1 else 0)
                      + (if st.hasSpecialChar then 1 else 0)
  {
    var st := CheckPasswordStrength(password);
    var a, b, c, d, e := st.hasLength, st.hasUppercase, st.hasLowercase, st.hasNumber, st.hasSpecialChar;
    assert CountTrue([e]) == (if e then 1 else 0) by { assert [e][1..] == []; }
    assert CountTrue([d, e]) == (if d then 1 else 0) + CountTrue([e]) by { assert [d, e][1..] == [e]; }
    assert CountTrue([c, d, e]) == (if c then 1 else 0) + CountTrue([d, e]) by { assert [c, d, e][1..] == [d, e]; }
    assert CountTrue([b, c, d, e]) == (if b then 1 else 0) + CountTrue([c, d, e]) by {
      assert [b, c, d, e][1..] == [c, d, e];
    }
    assert CountTrue(Flags(st)) == (if a then 1 else 0) + CountTrue([b, c, d, e]) by {
      assert Flags(st)[1..] == [b, c, d, e];
    }
    assert ([false] + Flags(st))[1..] == Flags(st);
  }

  /** The colour of bar `i`: the palette entry of the score for the bars up to
      the score, grey after it. */
  function BarColor(score: int, i: nat): (color: string)
    requires -1 <= score <= 4 && i < BarCount
    ensures color != EmptyBar <==> i <= score
  {
    if i <= score then Palette[score] else EmptyBar
  }

  function Bars(st: Strength): (bars: seq<string>)
    requires -1 <= st.score <= 4
    ensures |bars| == BarCount
    ensures forall i :: 0 <= i < BarCount ==> (bars[i] != EmptyBar <==> i <= st.score)
  {
    seq(BarCount, i requires 0 <= i < BarCount => BarColor(st.score, i))
  }

  function ColouredCount(bars: seq<string>): (n: nat)
    ensures n <= |bars|
  {
    if bars == [] then 0 else (if bars[0] != EmptyBar then 1 else 0) + ColouredCount(bars[1..])
  }

  /** Counting coloured bars from position `from` on. */
  lemma {:induction false} ColouredSuffix(score: int, from: nat)
    requires -1 <= score <= 4 && from <= BarCount
    ensures ColouredCount(seq(BarCount - from, i requires 0 <= i < BarCount - from => BarColor(score, from + i)))
      == if score < from then 0 else score + 1 - from
    decreases BarCount - from
  {
    var s := seq(BarCount - from, i requires 0 <= i < BarCount - from => BarColor(score, from + i));
    if from < BarCount {
      ColouredSuffix(score, from + 1);
      assert s[0] == BarColor(score, from);
      assert s[1..] == seq(BarCount - (from + 1), i requires 0 <= i < BarCount - (from + 1) => BarColor(score, from + 1 + i));
    }
  }

  /** The indicator lights one bar per criterion met, all in the colour of the
      score, and leaves the rest grey. */
  lemma StrengthBars(password: string)
    ensures var st := CheckPasswordStrength(password);
      && ColouredCount(Bars(st)) == st.score + 1
      && forall i :: 0 <= i < BarCount && Bars(st)[i] != EmptyBar ==> Bars(st)[i] == Palette[st.score]
  {
    var st := CheckPasswordStrength(password);
    ColouredSuffix(st.score, 0);
    assert Bars(st) == seq(BarCount - 0, i requires 0 <= i < BarCount - 0 => BarColor(st.score, 0 + i));
  }

  /** Examples: the empty password meets no criterion and lights nothing; a
      long mixed password with a digit and a symbol meets all five. */
  lemma StrengthExamples()
    ensures CheckPasswordStrength("").score == -1
    ensures CheckPasswordStrength("Secret#2024").score == 4
  {
    var p := "Secret#2024";
    assert IsUpper(p[0]) && IsLower(p[1]) && p[6] in SpecialChars && IsDigit(p[7]);
    ScoreCountsCriteria(p);
    ScoreCountsCriteria("");
  }

  /** The strength the component starts with: score 0 and no criterion. */
  const InitialStrength: Strength := Strength(0, false, false, false, false, false)

  /** Before any input, the indicator shows one red bar although no criterion
      is met, while the strength of the empty password lights none. */
  lemma InitialIndicatorShowsOneBar()
    ensures ColouredCount(Bars(InitialStrength)) == 1 && Bars(InitialStrength)[0] == "bg-red-500"
    ensures CountTrue(Flags(InitialStrength)) == 0
    ensures ColouredCount(Bars(CheckPasswordStrength(""))) == 0
  {
    ColouredSuffix(0, 0);
    assert Bars(InitialStrength) == seq(BarCount - 0, i requires 0 <= i < BarCount - 0 => BarColor(0, 0 + i));
    StrengthBars("");
    StrengthExamples();
  }

  class Field {
    var showPassword: bool
    var strength: Strength
    /** The values handed to the parent's change handler, oldest first. */
    var forwarded: seq<string>
    const showStrengthIndicator: bool
    const hasOnChange: bool

    constructor (showStrengthIndicator: bool, hasOnChange: bool)
      ensures !showPassword && strength == InitialStrength && forwarded == []
      ensures this.showStrengthIndicator == showStrengthIndicator && this.hasOnChange == hasOnChange
    {
      showPassword := false;
      strength := InitialStrength;
      forwarded := [];
      this.showStrengthIndicator := showStrengthIndicator;
      this.hasOnChange := hasOnChange;
    }

    /** The `type` of the input element. */
    function InputType(): (t: string)
      reads this
      ensures t == "text" <==> showPassword
      ensures t == "text" || t == "password"
    {
      if showPassword then "text" else "password"
    }

    /** The toggle button's accessible label. */
    function ToggleLabel(): (text: string)
      reads this
      ensures text == "Hide password" <==> showPassword
      ensures text == "Hide password" || text == "Show password"
    {
      if showPassword then "Hide password" else "Show password"
    }

    /** `handleChange`: recompute the strength only when the indicator is
        shown, and forward the value when the parent passed a handler. */
    method HandleChange(value: string)
      modifies this
      ensures strength == (if showStrengthIndicator then CheckPasswordStrength(value) else old(strength))
      ensures forwarded == (if hasOnChange then old(forwarded) + [value] else old(forwarded))
      ensures showPassword == old(showPassword)
    {
      if showStrengthIndicator {
        strength := CheckPasswordStrength(value);
      }
      if hasOnChange {
        forwarded := forwarded + [value];
      }
    }

    /** The eye button: flips visibility and nothing else. */
    method Toggle()
      modifies this
      ensures showPassword == !old(showPassword)
      ensures strength == old(strength) && forwarded == old(forwarded)
    {
      showPassword := !showPassword;
    }
  }

  /** Toggling, typing and toggling again restores the input type, and the
      indicator then shows the strength of what was typed. */
  method ToggleTwiceRestores(f: Field, value: string)
    modifies f
    ensures f.InputType() == old(f.InputType())
    ensures f.showStrengthIndicator ==> f.strength == CheckPasswordStrength(value)
  {
    f.Toggle();
    f.HandleChange(value);
    f.Toggle();
  }
}
