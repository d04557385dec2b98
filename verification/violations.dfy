/**
 * The violation log (TrafficViolation and ViolationManager in
 * Trafic_management_system.py) and the lines its report consists of.
 */
module Violations {

  /** One recorded infraction; immutable once created. */
  datatype TrafficViolation = TrafficViolation(vehicle: string, violationType: string)

  const REPORT_HEADER: string := "\n-- Recorded Violations --"
  const NO_VIOLATIONS: string := "\nNo violations recorded."

  predicate IsDigit(c: char) {
    '0' <= c <= '9'
  }

  /** The decimal rendering of `n`, as Python's string formatting writes an int:
      digits only, no leading zero. */
  function Decimal(n: nat): (s: string)
    ensures |s| >= 1
    ensures forall i :: 0 <= i < |s| ==> IsDigit(s[i])
    ensures s[0] == '0' <==> n == 0
    decreases n
  {
    if n < 10 then [('0' as int + n) as char]
    else Decimal(n / 10) + [('0' as int + n % 10) as char]
  }

  /** The number a string of decimal digits denotes. */
  function DigitsValue(s: string): nat
    requires forall i :: 0 <= i < |s| ==> IsDigit(s[i])
  {
    if s == [] then 0
    else
      assert IsDigit(s[|s| - 1]);
      DigitsValue(s[..|s| - 1]) * 10 + (s[|s| - 1] as int - '0' as int)
  }

  /** The longest prefix of `s` made of digits. */
  function LeadingDigits(s: string): (d: string)
    ensures forall i :: 0 <= i < |d| ==> IsDigit(d[i])
  {
    if s == [] || !IsDigit(s[0]) then [] else [s[0]] + LeadingDigits(s[1..])
  }

  /** Reading a rendered number back gives the number. */
  lemma {:induction false} DecimalRoundTrip(n: nat)
    ensures DigitsValue(Decimal(n)) == n
    decreases n
  {
    if n >= 10 {
      var s := Decimal(n);
      assert s[..|s| - 1] == Decimal(n / 10);
      DecimalRoundTrip(n / 10);
    }
  }

  /** A run of digits followed by a non-digit is exactly the leading digits. */
  lemma {:induction false} LeadingDigitsOfPrefix(d: string, rest: string)
    requires forall i :: 0 <= i < |d| ==> IsDigit(d[i])
    requires rest != [] && !IsDigit(rest[0])
    ensures LeadingDigits(d + rest) == d
    decreases |d|
  {
    if d == [] {
      assert d + rest == rest;
    } else {
      assert (d + rest)[1..] == d[1..] + rest;
      LeadingDigitsOfPrefix(d[1..], rest);
    }
  }

  /** The report line for the violation at 1-based position `index`. */
  function EntryText(index: nat, v: TrafficViolation): string {
    Decimal(index) + ". Vehicle " + v.vehicle + " committed " + v.violationType
  }

  /** Every entry line starts with its own position number, so the report's
      numbering can be read back from its lines. */
  lemma EntryNumber(index: nat, v: TrafficViolation)
    ensures DigitsValue(LeadingDigits(EntryText(index, v))) == index
  {
    var rest := ". Vehicle " + v.vehicle + " committed " + v.violationType;
    assert EntryText(index, v) == Decimal(index) + rest;
    LeadingDigitsOfPrefix(Decimal(index), rest);
    DecimalRoundTrip(index);
  }

  /** What `display_violations` reports for the log `vs`: the "no violations"
      line when it is empty, otherwise a header followed by one line per
      record, numbered from 1 in insertion order. */
  ghost predicate IsReportOf(lines: seq<string>, vs: seq<TrafficViolation>) {
    if vs == [] then lines == [NO_VIOLATIONS]
    else
      && |lines| == |vs| + 1
      && lines[0] == REPORT_HEADER
      && forall i :: 0 <= i < |vs| ==> lines[i + 1] == EntryText(i + 1, vs[i])
  }

  /** A log has exactly one report. */
  lemma ReportIsUnique(a: seq<string>, b: seq<string>, vs: seq<TrafficViolation>)
    requires IsReportOf(a, vs) && IsReportOf(b, vs)
    ensures a == b
  {
    if vs != [] {
      assert forall i :: 1 <= i < |a| ==> a[i] == EntryText(i, vs[i - 1]) == b[i];
    }
  }

  /** An append-only log of violations. */
  class ViolationManager {
    var violations: seq<TrafficViolation>

    constructor ()
      ensures violations == []
    {
      violations := [];
    }

    /** Appends the record `(vehicle, violationType)` at the end of the log. */
    method AddViolation(vehicle: string, violationType: string)
      modifies this
      ensures violations == old(violations) + [TrafficViolation(vehicle, violationType)]
    {
      var violation := TrafficViolation(vehicle, violationType);
      violations := violations + [violation];
    }

    /** The lines `display_violations` prints; the log is only read. */
    method DisplayViolations() returns (lines: seq<string>)
      ensures IsReportOf(lines, violations)
    {
      if violations != [] {
        lines := [REPORT_HEADER];
        var i := 0;
        while i < |violations|
          invariant 0 <= i <= |violations|
          invariant |lines| == i + 1 && lines[0] == REPORT_HEADER
          invariant forall j :: 0 <= j < i ==> lines[j + 1] == EntryText(j + 1, violations[j])
        {
          lines := lines + [EntryText(i + 1, violations[i])];
          i := i + 1;
        }
      } else {
        lines := [NO_VIOLATIONS];
      }
    }
  }

  /** Recording `reports` one after another, starting from an empty log. */
  function LogOf(reports: seq<(string, string)>): (log: seq<TrafficViolation>)
  {
    if reports == [] then []
    else LogOf(reports[..|reports| - 1])
         + [TrafficViolation(reports[|reports| - 1].0, reports[|reports| - 1].1)]
  }

  /** One more recording adds its record at the end of the log. */
  lemma LogOfAppend(reports: seq<(string, string)>, report: (string, string))
    ensures LogOf(reports + [report]) == LogOf(reports) + [TrafficViolation(report.0, report.1)]
  {
  }

  /** N recordings give a log of N records, in insertion order, each holding
      exactly the pair it was given. */
  lemma {:induction false} LogOfKeepsOrder(reports: seq<(string, string)>)
    ensures |LogOf(reports)| == |reports|
    ensures forall i :: 0 <= i < |reports| ==>
              LogOf(reports)[i] == TrafficViolation(reports[i].0, reports[i].1)
    decreases |reports|
  {
    if reports != [] {
      LogOfKeepsOrder(reports[..|reports| - 1]);
    }
  }
}
