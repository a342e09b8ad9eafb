/** The capsule card (src/components/CapsuleItem.tsx): whether a capsule may
    be opened yet, the countdown shown while it may not, the one-way "open"
    action and what the card displays in each state. Time is an integer count
    of milliseconds; `dayjs(date)` is the parameter `parseTime`, and every
    `a.diff(b, unit)` is the millisecond difference divided by the unit's
    length and truncated toward zero, as dayjs does. */
module Lifecycle {
  import opened Types
  import opened Text

  const MsPerSecond: int := 1000
  const MsPerMinute: int := 60 * MsPerSecond
  const MsPerHour: int := 60 * MsPerMinute
  const MsPerDay: int := 24 * MsPerHour
  /** The countdown's month: `Math.floor(diffDays / 30)`. */
  const DaysPerMonth: int := 30

  /** The text shown once the unlock time has passed. */
  const ReadyLabel: string := "Prête à ouvrir"

  /** Division truncated toward zero, the rounding dayjs applies to every
      `diff` (`Math.floor` for a non-negative quotient, `Math.ceil` for a
      negative one); Dafny's own `/` is Euclidean. */
  function TruncDiv(a: int, b: int): (q: int)
    requires b > 0
    ensures 0 <= a ==> 0 <= q && q * b <= a < q * b + b
    ensures a < 0 ==> q <= 0 && q * b - b < a <= q * b
  {
    if a >= 0 then
      FloorDivBounds(a, b);
      a / b
    else
      FloorDivBounds(-a, b);
      -((-a) / b)
  }

  lemma FloorDivBounds(a: nat, b: int)
    requires b > 0
    ensures 0 <= a / b && (a / b) * b <= a < (a / b) * b + b
  {
  }

  /** `later.diff(earlier, unit)` for a unit of `unitMs` milliseconds. */
  function Diff(later: Time, earlier: Time, unitMs: int): int
    requires unitMs > 0
  {
    TruncDiv(later - earlier, unitMs)
  }

  /** `dayjs().isAfter(dayjs(date))`: strictly after, to the millisecond. */
  predicate IsUnlockable(unlockAt: Time, now: Time) {
    now > unlockAt
  }

  /** Once a capsule is unlockable it stays unlockable. */
  lemma UnlockableMonotone(unlockAt: Time, now: Time, later: Time)
    requires IsUnlockable(unlockAt, now) && now <= later
    ensures IsUnlockable(unlockAt, later)
  {
  }

  /** Which branch of the countdown fired, with the number it reports. */
  datatype Countdown =
    | Ready
    | Months(months: nat)
    | Days(days: nat)
    | Hours(hours: nat)
    | Minutes(minutes: nat)
    | Seconds(seconds: nat)

  /** The decision cascade of `calculateTimeRemaining`: ready, else months
      when more than 30 whole days remain, else days, hours, minutes, and
      finally seconds. */
  function CountdownOf(unlockAt: Time, now: Time): (c: Countdown)
    ensures c.Ready? <==> IsUnlockable(unlockAt, now)
  {
    if IsUnlockable(unlockAt, now) then Ready
    else
      var diffDays := Diff(unlockAt, now, MsPerDay);
      if diffDays > 30 then Months(diffDays / DaysPerMonth)
      else if diffDays > 0 then Days(diffDays)
      else
        var diffHours := Diff(unlockAt, now, MsPerHour);
        if diffHours > 0 then Hours(diffHours)
        else
          var diffMinutes := Diff(unlockAt, now, MsPerMinute);
          if diffMinutes > 0 then Minutes(diffMinutes)
          else Seconds(Diff(unlockAt, now, MsPerSecond))
  }

  /** Which countdown branch fires depends only on the remaining time
      `d = unlockAt - now`, each on one range of it: ready below zero, months
      from 31 days, days from one day, hours from one hour, minutes from one
      minute, and seconds below that. */
  lemma CountdownBranches(unlockAt: Time, now: Time)
    ensures var c, d := CountdownOf(unlockAt, now), unlockAt - now;
      && (c.Ready? <==> d < 0)
      && (c.Months? <==> d >= 31 * MsPerDay)
      && (c.Days? <==> MsPerDay <= d < 31 * MsPerDay)
      && (c.Hours? <==> MsPerHour <= d < MsPerDay)
      && (c.Minutes? <==> MsPerMinute <= d < MsPerHour)
      && (c.Seconds? <==> 0 <= d < MsPerMinute)
  {
  }

  /** The number each countdown branch reports is the count of whole units
      in the remaining time `d` (for months, of whole 30-day blocks), which
      bounds it: months at least 1, days 1..30, hours 1..23, minutes 1..59,
      seconds 0..59. */
  lemma CountdownCounts(unlockAt: Time, now: Time)
    ensures var c, d := CountdownOf(unlockAt, now), unlockAt - now;
      && (c.Months? ==> (c.months >= 1 &&
            c.months * DaysPerMonth * MsPerDay <= d < (c.months + 1) * DaysPerMonth * MsPerDay))
      && (c.Days? ==> 1 <= c.days <= 30 && c.days * MsPerDay <= d < (c.days + 1) * MsPerDay)
      && (c.Hours? ==> 1 <= c.hours <= 23 && c.hours * MsPerHour <= d < (c.hours + 1) * MsPerHour)
      && (c.Minutes? ==> (1 <= c.minutes <= 59 &&
            c.minutes * MsPerMinute <= d < (c.minutes + 1) * MsPerMinute))
      && (c.Seconds? ==> (c.seconds <= 59 &&
            c.seconds * MsPerSecond <= d < (c.seconds + 1) * MsPerSecond))
  {
    CountdownBranches(unlockAt, now);
  }

  /** The text of each countdown branch, with its exact wording. */
  function Render(c: Countdown): string {
    match c
    case Ready => ReadyLabel
    case Months(n) => NatToString(n) + " mois restants"
    case Days(n) => NatToString(n) + " jours restants"
    case Hours(n) => NatToString(n) + " heures restantes"
    case Minutes(n) => NatToString(n) + " minutes restantes"
    case Seconds(n) => NatToString(n) + " seconds restantes"
  }

  /** `calculateTimeRemaining(date)` with `dayjs(date)` = `unlockAt`. */
  function CalculateTimeRemaining(unlockAt: Time, now: Time): string {
    Render(CountdownOf(unlockAt, now))
  }

  /** The countdown text is the ready label exactly when the capsule is
      unlockable; every other text starts with the digits of its count. */
  lemma ReadyLabelIffUnlockable(unlockAt: Time, now: Time)
    ensures CalculateTimeRemaining(unlockAt, now) == ReadyLabel <==> IsUnlockable(unlockAt, now)
    ensures !IsUnlockable(unlockAt, now) ==> IsDigit(CalculateTimeRemaining(unlockAt, now)[0])
  {

  }

  /** 45 days ahead reads "1 mois restants" (floor(45 / 30) = 1). */
  lemma FortyFiveDaysReadsOneMonth(now: Time)
    ensures CalculateTimeRemaining(now + 45 * MsPerDay, now) == "1 mois restants"
  {
    assert Diff(now + 45 * MsPerDay, now, MsPerDay) == 45;
    assert NatToString(1) == "1";
  }

  /** One minute ahead reads "1 minutes restantes": the minutes branch, not
      the seconds one. */
  lemma OneMinuteReadsOneMinute(now: Time)
    ensures CalculateTimeRemaining(now + MsPerMinute, now) == "1 minutes restantes"
  {
    assert Diff(now + MsPerMinute, now, MsPerDay) == 0;
    assert Diff(now + MsPerMinute, now, MsPerHour) == 0;
    assert Diff(now + MsPerMinute, now, MsPerMinute) == 1;
    assert NatToString(1) == "1";
  }

  /** At the unlock instant itself the capsule is still locked and the
      countdown reads zero seconds. */
  lemma AtUnlockInstant(t: Time)
    ensures !IsUnlockable(t, t)
    ensures CalculateTimeRemaining(t, t) == "0 seconds restantes"
  {
    assert Diff(t, t, MsPerSecond) == 0;
    assert NatToString(0) == "0";
  }

  /** The icon in the card's corner: the mail button or the padlock. */
  datatype Badge = OpenIcon | LockIcon

  /** The lower part of the card: the message with its delete button, the
      "Ouvrir la capsule" button, or the disabled "Pas encore disponible" one. */
  datatype Footer = MessagePanel(message: string, deleteId: string) | OpenButton | DisabledButton

  /** What a card shows: title, badge, countdown text if any, footer. */
  datatype ItemView = ItemView(title: string, badge: Badge, countdown: Option<string>, footer: Footer)

  /** The card rendered for `capsule` with open state `isOpen`; `unlockAt`
      is the capsule's unlock date as parsed by the card,
      `dayjs(capsule.unlockDate)`, the same instant `HandleOpen` obtains
      through its `parseTime`. The card reads the clock twice: `now` when it decides whether the capsule is
      unlockable, and `countdownNow`, no earlier, inside
      `calculateTimeRemaining`. */
  function ViewOf(capsule: Capsule, isOpen: bool, unlockAt: Time, now: Time, countdownNow: Time): ItemView {
    var unlockable := IsUnlockable(unlockAt, now);
    ItemView(
      capsule.title,
      if unlockable then OpenIcon else LockIcon,
      if !isOpen && !unlockable then Some(CalculateTimeRemaining(unlockAt, countdownNow)) else None,
      if isOpen then MessagePanel(capsule.message, capsule.id)
      else if unlockable then OpenButton
      else DisabledButton)
  }

  /** The mail badge (which also calls `handleOpen`) appears exactly when the
      capsule is unlockable, open card included; the message and the delete
      control exactly on an opened card; the countdown exactly on a card
      neither open nor unlockable, and it then shows the ready text exactly
      when the second clock read is past the unlock time; the footer's open
      button exactly when the capsule is unlockable and not yet open. */
  lemma ViewInvariants(capsule: Capsule, isOpen: bool, unlockAt: Time, now: Time, countdownNow: Time)
    ensures var v := ViewOf(capsule, isOpen, unlockAt, now, countdownNow);
      && (v.badge.OpenIcon? <==> IsUnlockable(unlockAt, now))
      && (v.footer.MessagePanel? <==> isOpen)
      && (v.footer.MessagePanel? ==> v.footer.message == capsule.message && v.footer.deleteId == capsule.id)
      && (v.countdown.Some? <==> !isOpen && !IsUnlockable(unlockAt, now))
      && (v.countdown.Some? ==>
            (v.countdown.value == ReadyLabel <==> IsUnlockable(unlockAt, countdownNow))
            && v.footer.DisabledButton?)
      && (v.footer.OpenButton? <==> !isOpen && IsUnlockable(unlockAt, now))
  {
    ReadyLabelIffUnlockable(unlockAt, countdownNow);
  }

  /** When both clock reads see the same instant, a shown countdown is a real
      count, never the ready text. */
  lemma CountdownNotReadyAtOneInstant(capsule: Capsule, isOpen: bool, unlockAt: Time, now: Time)
    ensures var v := ViewOf(capsule, isOpen, unlockAt, now, now);
      v.countdown.Some? ==> v.countdown.value != ReadyLabel
  {
    ReadyLabelIffUnlockable(unlockAt, now);
  }

  /** Whenever the unlock time is not yet past at the first clock read but
      is past at the second, a locked card shows the ready text in its
      countdown slot. */
  lemma CountdownReadyAcrossUnlock(capsule: Capsule, unlockAt: Time, now: Time, countdownNow: Time)
    requires !IsUnlockable(unlockAt, now) && IsUnlockable(unlockAt, countdownNow)
    ensures ViewOf(capsule, false, unlockAt, now, countdownNow).countdown == Some(ReadyLabel)
  {
    ViewInvariants(capsule, false, unlockAt, now, countdownNow);
  }

  /** One mounted card: the capsule it was given and its `isOpen` state. */
  class CapsuleItem {
    const capsule: Capsule
    var isOpen: bool

    /** `useState(capsule.opened)`. */
    constructor (capsule: Capsule)
      ensures this.capsule == capsule && isOpen == capsule.isOpened
    {
      this.capsule := capsule;
      isOpen := capsule.isOpened;
    }

    /** `handleOpen`: on an unlockable card that is not open yet, set
        `isOpen` and hand back the capsule with `opened = true` for the
        collection to store; in any other state do nothing and hand back
        nothing. `isOpen` never goes from true to false. */
    method HandleOpen(parseTime: string -> Time, now: Time) returns (update: Option<Capsule>)
      modifies this
      ensures old(isOpen) ==> isOpen
      ensures IsUnlockable(parseTime(capsule.unlockDate), now) && !old(isOpen) ==>
        isOpen && update == Some(capsule.(isOpened := true))
      ensures !(IsUnlockable(parseTime(capsule.unlockDate), now) && !old(isOpen)) ==>
        isOpen == old(isOpen) && update == None
    {
      if IsUnlockable(parseTime(capsule.unlockDate), now) && !isOpen {
        isOpen := true;
        update := Some(capsule.(isOpened := true));
      } else {
        update := None;
      }
    }
  }
}
