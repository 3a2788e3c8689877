/**
 * The user summary card: phone formatting, avatar initials, and the two
 * "copied" flags that a clipboard write sets and a timer clears.
 */
module UserItem {
  import opened JsText
  import opened Timers

  // ---------------------------------------------------------------------
  // formatPhone
  // ---------------------------------------------------------------------

  /** `/^(\d{2})(\d{5})(\d{4})$/` matches the whole string: eleven digits. */
  predicate PhonePattern(d: string) {
    |d| == 11 && AllDigits(d)
  }

  /** Renders the digits of a Brazilian mobile number as `(XX) XXXXX-XXXX` when
      there are exactly eleven of them, and leaves any other input as it was. */
  function FormatPhone(phone: string): string {
    var cleaned := Digits(phone);
    if PhonePattern(cleaned) then "(" + cleaned[..2] + ") " + cleaned[2..7] + "-" + cleaned[7..]
    else phone
  }

  /** The `(XX) XXXXX-XXXX` layout, described position by position. */
  predicate PhoneLayout(r: string) {
    && |r| == 15
    && r[0] == '(' && r[3] == ')' && r[4] == ' ' && r[10] == '-'
    && AllDigits(r[1..3]) && AllDigits(r[5..10]) && AllDigits(r[11..])
  }

  /** The digits of a string in the layout are its three digit groups, in order. */
  lemma LayoutDigits(r: string)
    requires PhoneLayout(r)
    ensures r == "(" + r[1..3] + ") " + r[5..10] + "-" + r[11..]
    ensures Digits(r) == r[1..3] + r[5..10] + r[11..]
  {
    assert r == "(" + r[1..3] + ") " + r[5..10] + "-" + r[11..];
    DigitsAppend("(" + r[1..3] + ") " + r[5..10] + "-", r[11..]);
    DigitsAppend("(" + r[1..3] + ") " + r[5..10], "-");
    DigitsAppend("(" + r[1..3] + ") ", r[5..10]);
    DigitsAppend("(" + r[1..3], ") ");
    DigitsAppend("(", r[1..3]);
    DigitsOfNoDigits("(");
    DigitsOfNoDigits(") ");
    DigitsOfNoDigits("-");
    DigitsOfAllDigits(r[1..3]);
    DigitsOfAllDigits(r[5..10]);
    DigitsOfAllDigits(r[11..]);
  }

  /** The layout and the digit sequence together fix the string: there is one way to
      write eleven digits as `(XX) XXXXX-XXXX`. */
  lemma PhoneLayoutUnique(r1: string, r2: string)
    requires PhoneLayout(r1) && PhoneLayout(r2) && Digits(r1) == Digits(r2)
    ensures r1 == r2
  {
    LayoutDigits(r1);
    LayoutDigits(r2);
    var d := Digits(r1);
    assert r1[1..3] == d[..2] == r2[1..3];
    assert r1[5..10] == d[2..7] == r2[5..10];
    assert r1[11..] == d[7..] == r2[11..];
  }

  /** formatPhone: eleven digits come out in the layout with the same digits in the same
      order; any other digit count gives back the input itself, not the cleaned digits. */
  lemma FormatPhoneSpec(phone: string)
    ensures |Digits(phone)| == 11 ==>
              PhoneLayout(FormatPhone(phone)) && Digits(FormatPhone(phone)) == Digits(phone)
    ensures |Digits(phone)| != 11 ==> FormatPhone(phone) == phone
  {
    var d := Digits(phone);
    if |d| == 11 {
      var r := FormatPhone(phone);
      assert r == "(" + d[..2] + ") " + d[2..7] + "-" + d[7..];
      assert r[1..3] == d[..2] && r[5..10] == d[2..7] && r[11..] == d[7..];
      assert PhoneLayout(r);
      LayoutDigits(r);
      assert d == d[..2] + d[2..7] + d[7..];
    }
  }

  /** formatPhone never adds, drops or reorders a digit. */
  lemma FormatPhoneKeepsDigits(phone: string)
    ensures Digits(FormatPhone(phone)) == Digits(phone)
  {
    FormatPhoneSpec(phone);
  }

  /** formatPhone applied to its own output changes nothing. */
  lemma FormatPhoneIdempotent(phone: string)
    ensures FormatPhone(FormatPhone(phone)) == FormatPhone(phone)
  {
    var r := FormatPhone(phone);
    FormatPhoneSpec(phone);
    FormatPhoneSpec(r);
    if |Digits(phone)| == 11 {
      PhoneLayoutUnique(FormatPhone(r), r);
    }
  }

  // ---------------------------------------------------------------------
  // getInitials (the same function serves the card and the detail page)
  // ---------------------------------------------------------------------

  /** `.map((n) => n[0]).join("")`: the first character of every token; an empty
      token yields `undefined`, which `join` renders as nothing. */
  function FirstChars(tokens: seq<string>): string {
    if tokens == [] then ""
    else (if tokens[0] == "" then "" else [tokens[0][0]]) + FirstChars(tokens[1..])
  }

  /** `name.split(" ").map((n) => n[0]).join("").toUpperCase().slice(0, 2)`. */
  function Initials(name: string): (r: string)
    ensures |r| <= 2
  {
    Prefix(Upper(FirstChars(Split(name, ' '))), 2)
  }

  /** The characters of `s` that begin a word, words being separated by the space
      character alone: a non-space character at the start (when `afterSpace`) or
      right after a space. */
  function WordStarts(s: string, afterSpace: bool): string {
    if s == [] then ""
    else (if afterSpace && s[0] != ' ' then [s[0]] else "") + WordStarts(s[1..], s[0] == ' ')
  }

  lemma {:induction false} FirstCharsSplit(s: string)
    ensures FirstChars(Split(s, ' ')) == WordStarts(s, true)
    ensures FirstChars(Split(s, ' ')[1..]) == WordStarts(s, false)
  {
    if s != [] {
      var rest := Split(s[1..], ' ');
      FirstCharsSplit(s[1..]);
      if s[0] == ' ' {
        assert ([""] + rest)[1..] == rest;
      } else {
        var parts := [[s[0]] + rest[0]] + rest[1..];
        assert parts[1..] == rest[1..];
      }
    }
  }

  /** getInitials: the upper-cased first characters of the space-separated words, in
      order, at most two of them. */
  lemma InitialsAreWordStarts(name: string)
    ensures Initials(name) == Prefix(Upper(WordStarts(name, true)), 2)
  {
    FirstCharsSplit(name);
  }

  /** Each initial is the upper-case form of a character that begins a word; `i` is
      where that character sits in the name. */
  lemma InitialSource(name: string, k: nat) returns (i: nat)
    requires k < |Initials(name)|
    ensures i < |name| && name[i] != ' ' && (i == 0 || name[i - 1] == ' ')
    ensures Initials(name)[k] == ToUpper(name[i])
  {
    InitialsAreWordStarts(name);
    var w := WordStarts(name, true);
    i := WordStartPosition(name, true, k);
    assert Initials(name)[k] == Upper(w)[k] == ToUpper(w[k]);
  }

  /** Where the `k`-th word start of `s` sits in `s`. */
  lemma {:induction false} WordStartPosition(s: string, afterSpace: bool, k: nat) returns (i: nat)
    requires k < |WordStarts(s, afterSpace)|
    ensures i < |s| && s[i] != ' ' && (if i == 0 then afterSpace else s[i - 1] == ' ')
    ensures WordStarts(s, afterSpace)[k] == s[i]
  {
    var head: string := if afterSpace && s[0] != ' ' then [s[0]] else "";
    assert WordStarts(s, afterSpace) == head + WordStarts(s[1..], s[0] == ' ');
    if k < |head| {
      i := 0;
    } else {
      var j := WordStartPosition(s[1..], s[0] == ' ', k - |head|);
      i := j + 1;
    }
  }

  lemma {:induction false} WordStartsAppend(a: string, b: string, afterSpace: bool)
    requires a != []
    ensures WordStarts(a + b, afterSpace) == WordStarts(a, afterSpace) + WordStarts(b, a[|a| - 1] == ' ')
  {
    assert (a + b)[1..] == a[1..] + b;
    if |a| > 1 {
      WordStartsAppend(a[1..], b, a[0] == ' ');
    }
  }

  lemma {:induction false} WordStartsOfWord(a: string, afterSpace: bool)
    requires a != [] && ' ' !in a
    ensures WordStarts(a, afterSpace) == if afterSpace then [a[0]] else ""
  {
    if |a| > 1 {
      WordStartsOfWord(a[1..], false);
    }
  }

  /** A name made of two words separated by one space gives the first letter of each. */
  lemma InitialsOfTwoWords(first: string, last: string)
    requires first != [] && last != [] && ' ' !in first && ' ' !in last
    ensures Initials(first + " " + last) == [ToUpper(first[0]), ToUpper(last[0])]
  {
    InitialsAreWordStarts(first + " " + last);
    WordStartsAppend(first, " " + last, true);
    assert first + " " + last == first + (" " + last);
    WordStartsOfWord(first, true);
    WordStartsAppend(" ", last, false);
    WordStartsOfWord(last, true);
  }

  lemma InitialsExamples()
    ensures Initials("Leanne Graham") == "LG"
    ensures Initials("Madam") == "M"
    ensures Initials("") == ""
  {
    InitialsOfTwoWords("Leanne", "Graham");
    assert "Leanne" + " " + "Graham" == "Leanne Graham";
    InitialsAreWordStarts("Madam");
    WordStartsOfWord("Madam", true);
  }

  // ---------------------------------------------------------------------
  // Copy feedback
  // ---------------------------------------------------------------------

  const EmailCopiedText := "Email copiado!"
  const PhoneCopiedText := "Telefone copiado!"

  /** The feedback line under the card: shown when either flag is set, and the email
      text takes precedence when both are. */
  function CardFeedback(emailCopied: bool, phoneCopied: bool): (m: Option<string>)
    ensures m.Some? <==> emailCopied || phoneCopied
    ensures emailCopied ==> m == Some(EmailCopiedText)
    ensures !emailCopied && phoneCopied ==> m == Some(PhoneCopiedText)
  {
    if emailCopied || phoneCopied then
      Some(if emailCopied then EmailCopiedText else PhoneCopiedText)
    else None
  }

  /** Which flag a copy button and its reset timer act on. */
  datatype Flag = EmailFlag | PhoneFlag

  /** The card's copy state: the two flags, the clock, and the reset timers not yet fired. */
  class CardCopyState {
    var emailCopied: bool
    var phoneCopied: bool
    var now: nat
    var pending: seq<Timer<Flag>>

    /** A raised flag always has a reset timer waiting for it, at most `Delay` ahead. */
    ghost predicate Valid()
      reads this
    {
      && Ordered(pending) && Window(pending, now)
      && (emailCopied ==> Tagged(pending, EmailFlag))
      && (phoneCopied ==> Tagged(pending, PhoneFlag))
    }

    /** Both flags start lowered. */
    constructor ()
      ensures Valid()
      ensures !emailCopied && !phoneCopied && now == 0 && pending == []
    {
      emailCopied, phoneCopied := false, false;
      now, pending := 0, [];
    }

    /** handleCopyEmail (`which == EmailFlag`) or handleCopyPhone: `written` says whether
        the clipboard write succeeded. On success the flag is raised and a reset is
        scheduled `Delay` later, beside any reset already pending; on failure nothing changes. */
    method Copy(which: Flag, written: bool)
      requires Valid()
      modifies this
      ensures Valid() && now == old(now)
      ensures !written ==> emailCopied == old(emailCopied) && phoneCopied == old(phoneCopied)
                           && pending == old(pending)
      ensures written ==> pending == old(pending) + [Timer(now + Delay, which)]
      ensures written ==> emailCopied == (old(emailCopied) || which == EmailFlag)
      ensures written ==> phoneCopied == (old(phoneCopied) || which == PhoneFlag)
    {
      if written {
        ghost var before := pending;
        if which == EmailFlag {
          emailCopied := true;
        } else {
          phoneCopied := true;
        }
        Schedule(pending, now, which);
        pending := pending + [Timer(now + Delay, which)];
        assert pending[|pending| - 1].tag == which;
        assert forall i :: 0 <= i < |before| ==> pending[i] == before[i];
      }
    }

    /** Lets the clock run to `t`, firing every reset that comes due on the way, in
        deadline order; each one lowers its own flag. */
    method AdvanceTo(t: nat)
      requires Valid() && now <= t
      modifies this`emailCopied, this`phoneCopied, this`pending, this`now
      ensures Valid() && now == t
      ensures pending == old(pending)[DueCount(old(pending), t)..]
      ensures emailCopied == (old(emailCopied) && !Tagged(old(pending)[..DueCount(old(pending), t)], EmailFlag))
      ensures phoneCopied == (old(phoneCopied) && !Tagged(old(pending)[..DueCount(old(pending), t)], PhoneFlag))
      ensures forall i :: 0 <= i < |old(pending)| && old(pending)[i].deadline <= t ==>
                (old(pending)[i].tag == EmailFlag ==> !emailCopied) &&
                (old(pending)[i].tag == PhoneFlag ==> !phoneCopied)
      ensures old(now) + Delay <= t ==> !emailCopied && !phoneCopied && pending == []
    {
      ghost var k := DueCount(pending, t);
      var email, phone, rest := FireResets(emailCopied, phoneCopied, pending, t);
      FiredPrefix(pending, now, t, k);
      assert email ==> Tagged(rest, EmailFlag) by {
        if email {
          TaggedSplit(pending, k, EmailFlag);
        }
      }
      assert phone ==> Tagged(rest, PhoneFlag) by {
        if phone {
          TaggedSplit(pending, k, PhoneFlag);
        }
      }
      emailCopied, phoneCopied, pending, now := email, phone, rest, t;
    }
  }

  /** The resets at the head of `queue` that are due at `t` fire one after the other,
      each lowering its own flag; the rest stay pending. */
  method FireResets(emailCopied: bool, phoneCopied: bool, queue: seq<Timer<Flag>>, t: nat)
    returns (email: bool, phone: bool, rest: seq<Timer<Flag>>)
    ensures rest == queue[DueCount(queue, t)..]
    ensures email == (emailCopied && !Tagged(queue[..DueCount(queue, t)], EmailFlag))
    ensures phone == (phoneCopied && !Tagged(queue[..DueCount(queue, t)], PhoneFlag))
  {
    email, phone, rest := emailCopied, phoneCopied, queue;
    ghost var fired := 0;
    while rest != [] && rest[0].deadline <= t
      invariant fired <= |queue| && rest == queue[fired..]
      invariant forall j :: 0 <= j < fired ==> queue[j].deadline <= t
      invariant email == (emailCopied && !Tagged(queue[..fired], EmailFlag))
      invariant phone == (phoneCopied && !Tagged(queue[..fired], PhoneFlag))
    {
      assert queue[..fired + 1] == queue[..fired] + [rest[0]];
      TaggedSnoc(queue[..fired], rest[0], EmailFlag);
      TaggedSnoc(queue[..fired], rest[0], PhoneFlag);
      if rest[0].tag == EmailFlag {
        email := false;
      } else {
        phone := false;
      }
      rest := rest[1..];
      fired := fired + 1;
    }
    DueCountStop(queue, t, fired);
  }

  /** Copying the email again before the first reset fires does not postpone that reset:
      the flag raised at `t1` is lowered at `t1 + Delay` whatever happened at `t1 + d`. */
  method RecopyDoesNotExtend(card: CardCopyState, d: nat)
    requires card.Valid() && 0 < d < Delay
    modifies card
    ensures card.Valid() && card.now == old(card.now) + Delay
    ensures !card.emailCopied
  {
    var t1 := card.now;
    card.Copy(EmailFlag, true);
    ghost var q1 := card.pending;
    ghost var first := |q1| - 1;
    card.AdvanceTo(t1 + d);
    ghost var k1 := DueCount(q1, t1 + d);
    assert k1 <= first by {
      assert q1[first].deadline == t1 + Delay;
    }
    card.Copy(EmailFlag, true);
    assert card.pending[first - k1] == Timer(t1 + Delay, EmailFlag);
    card.AdvanceTo(t1 + Delay);
  }
}
