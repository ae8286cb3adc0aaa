/**
 * The results panel of a poll: each option's vote count and share of the
 * total, shown to one decimal place, and the total itself.  A share is kept
 * as an exact number of tenths of a percent, rounded half up.
 */
module PollResults {
  import opened JsString

  /** An option as the panel receives it. */
  datatype OptionTally = OptionTally(id: string, text: string, votes: nat)

  /** The share `votes / totalVotes * 100`, in tenths, rounded half up; `0` when there are no votes. */
  function PercentTenths(votes: nat, totalVotes: nat): (tenths: nat)
    ensures totalVotes == 0 ==> tenths == 0
    ensures totalVotes > 0 ==>
      2 * totalVotes * tenths <= 2000 * votes + totalVotes < 2 * totalVotes * (tenths + 1)
  {
    if totalVotes == 0 then 0
    else
      var n, d := 2000 * votes + totalVotes, 2 * totalVotes;
      var q := n / d;
      assert n == d * q + n % d;
      q
  }

  /** A number with one decimal place as `toFixed(1)` writes it: digits, a point, one digit, no leading zero. */
  predicate IsFixed1(s: string) {
    && |s| >= 3 && s[|s| - 2] == '.'
    && (forall i :: 0 <= i < |s| - 2 ==> '0' <= s[i] <= '9')
    && '0' <= s[|s| - 1] <= '9'
    && (s[0] == '0' ==> |s| == 3)
  }

  /** The value, in tenths, of such a number. */
  function Fixed1Value(s: string): nat
    requires IsFixed1(s)
  {
    DecimalValue(s[..|s| - 2]) * 10 + (s[|s| - 1] as int - '0' as int)
  }

  /** `toFixed(1)` of a share given in tenths. */
  function PercentText(tenths: nat): (s: string)
    ensures IsFixed1(s) && Fixed1Value(s) == tenths
  {
    var whole := NatToString(tenths / 10);
    NatToStringRoundTrip(tenths / 10);
    var s := whole + "." + [Digit(tenths % 10)];
    assert s[..|s| - 2] == whole;
    s
  }

  /** `getPercentage(votes)`: the share of `votes` in the total, shown to one decimal place. */
  function GetPercentage(votes: nat, totalVotes: nat): (s: string)
    ensures IsFixed1(s)
    ensures totalVotes == 0 ==> s == "0.0"
    ensures totalVotes > 0 ==>
      2 * totalVotes * Fixed1Value(s) <= 2000 * votes + totalVotes < 2 * totalVotes * (Fixed1Value(s) + 1)
  {
    PercentText(PercentTenths(votes, totalVotes))
  }

  /** One line of the panel: the option text, its count and share, and the width of its bar. */
  datatype ResultRow = ResultRow(text: string, summary: string, barWidth: string)

  /** The rendered panel. */
  datatype ResultsView = ResultsView(rows: seq<ResultRow>, totalLine: string)

  /** The row of one option: its text, then its count and share, and a bar as wide as that share. */
  function Row(option: OptionTally, totalVotes: nat): (r: ResultRow)
    ensures r.text == option.text
    ensures r.barWidth == GetPercentage(option.votes, totalVotes) + "%"
    ensures r.summary == NatToString(option.votes) + " votes (" + r.barWidth + ")"
  {
    var share := GetPercentage(option.votes, totalVotes);
    ResultRow(option.text, NatToString(option.votes) + " votes (" + share + "%)", share + "%")
  }

  /** `PollResults`: one row per option, in order, and the total as given. */
  function Render(options: seq<OptionTally>, totalVotes: nat): (view: ResultsView)
    ensures |view.rows| == |options|
    ensures forall i :: 0 <= i < |options| ==>
      var share := GetPercentage(options[i].votes, totalVotes);
      && view.rows[i].text == options[i].text
      && view.rows[i].summary == NatToString(options[i].votes) + " votes (" + share + "%)"
      && view.rows[i].barWidth == share + "%"
    ensures view.totalLine == "Total votes: " + NatToString(totalVotes)
  {
    ResultsView(seq(|options|, i requires 0 <= i < |options| => Row(options[i], totalVotes)),
                "Total votes: " + NatToString(totalVotes))
  }

  /** With no votes every share reads `0.0`, whatever the option's own count, and a zero count reads `0 votes (0.0%)`. */
  lemma NoVotesReadsZero(votes: nat)
    ensures GetPercentage(votes, 0) == "0.0"
    ensures Row(OptionTally("1", "Option A", 0), 0).summary == "0 votes (0.0%)"
  {
    assert NatToString(0) == "0";
  }

  /** Scaling by a non-negative factor keeps order. */
  lemma {:induction false} ScaleMonotone(c: nat, x: nat, y: nat)
    requires x <= y
    ensures c * x <= c * y
    decreases c
  {
    if c > 0 {
      ScaleMonotone(c - 1, x, y);
      assert c * x == (c - 1) * x + x;
      assert c * y == (c - 1) * y + y;
    }
  }

  /** A share rounded from a count within the total is at most 1000 tenths. */
  lemma TenthsAtMost(tenths: nat, votes: nat, totalVotes: nat)
    requires totalVotes > 0 && votes <= totalVotes
    requires 2 * totalVotes * tenths <= 2000 * votes + totalVotes
    ensures tenths <= 1000
  {
    if tenths > 1000 {
      ScaleMonotone(2 * totalVotes, 1001, tenths);
      assert false;
    }
  }

  /** A count within the total gives a share between 0.0 and 100.0. */
  lemma PercentWithinBounds(votes: nat, totalVotes: nat)
    requires votes <= totalVotes
    ensures 0 <= PercentTenths(votes, totalVotes) <= 1000
  {
    if totalVotes > 0 {
      TenthsAtMost(PercentTenths(votes, totalVotes), votes, totalVotes);
    }
  }

  /** All the votes make exactly 100.0. */
  lemma AllVotesIsHundred(totalVotes: nat)
    requires totalVotes > 0
    ensures PercentTenths(totalVotes, totalVotes) == 1000
  {
    var t := PercentTenths(totalVotes, totalVotes);
    TenthsAtMost(t, totalVotes, totalVotes);
    if t < 1000 {
      ScaleMonotone(2 * totalVotes, t + 1, 1000);
      assert false;
    }
  }

  /** For a fixed total, more votes never show a smaller share. */
  lemma PercentMonotone(votes: nat, more: nat, totalVotes: nat)
    requires votes <= more
    ensures PercentTenths(votes, totalVotes) <= PercentTenths(more, totalVotes)
  {
    if totalVotes > 0 {
      var a, b := PercentTenths(votes, totalVotes), PercentTenths(more, totalVotes);
      if a > b {
        ScaleMonotone(2 * totalVotes, b + 1, a);
        assert false;
      }
    }
  }

  /** The shares of the three-option example with 30 votes, and of 11 votes out of 31. */
  lemma ExampleShares()
    ensures GetPercentage(10, 30) == "33.3"
    ensures GetPercentage(5, 30) == "16.7"
    ensures GetPercentage(15, 30) == "50.0"
    ensures GetPercentage(11, 31) == "35.5"
  {
    assert PercentTenths(10, 30) == 333;
    assert PercentTenths(5, 30) == 167;
    assert PercentTenths(15, 30) == 500;
    assert PercentTenths(11, 31) == 355;
    assert NatToString(33) == "33";
    assert NatToString(16) == "16";
    assert NatToString(50) == "50";
    assert NatToString(35) == "35";
  }
}
