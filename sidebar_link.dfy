/** A sidebar entry (frontend/src/components/SidebarLink.jsx): its link, text and the
    optional count badge. */
module SidebarLink {
  import opened Wrappers
  import opened Strings

  /** What the entry renders: the target, the text and the badge's text, if any. */
  datatype Rendered = Rendered(target: string, text: string, badge: Option<string>)

  /** The badge for `num` (`None` when the prop is not given): shown only for a positive
      count; a count below 99 verbatim, from 99 up as `+99`. */
  function Badge(num: Option<nat>): (b: Option<string>)
    ensures b.Some? <==> num.Some? && num.value > 0
    ensures b.Some? && num.value < 99 ==> IsDigits(b.value) && DecimalValue(b.value) == num.value
    ensures b.Some? && num.value >= 99 ==> b.value == "+99"
  {
    if num.Some? && num.value > 0 then
      if num.value < 99 then DecimalRoundTrip(num.value); Some(NatToString(num.value)) else Some("+99")
    else None
  }

  function Render(link: string, text: string, num: Option<nat>): (r: Rendered)
    ensures r.target == link && r.text == text && r.badge == Badge(num)
  {
    Rendered(link, text, Badge(num))
  }

  /** A numeral of a count below 99 has at most two digits. */
  lemma {:induction false} SmallNumeral(n: nat)
    requires n < 99
    ensures |NatToString(n)| <= 2
  {
    if n >= 10 {
      assert n / 10 < 10;
    }
  }

  /** The badge never takes more than three characters. */
  lemma BadgeIsShort(num: Option<nat>)
    ensures Badge(num).Some? ==> |Badge(num).value| <= 3
  {
    if num.Some? && 0 < num.value < 99 {
      SmallNumeral(num.value);
    }
  }

  /** The badge text distinguishes every count below 99 and none above. */
  lemma BadgeSaturates(m: nat, n: nat)
    requires 0 < m && 0 < n
    ensures Badge(Some(m)) == Badge(Some(n)) <==> m == n || (m >= 99 && n >= 99)
  {
    if m < 99 && n >= 99 {
      assert Badge(Some(n)).value[0] == '+';
    } else if n < 99 && m >= 99 {
      assert Badge(Some(m)).value[0] == '+';
    }
  }
}
