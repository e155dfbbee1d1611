/** The teacher's list of assignments with their response counts
    (Client/src/Components/Submissions.tsx): the deadline predicates, the
    status and count labels. A deadline is the number of milliseconds from
    now until it. The pairing of assignments with counts is
    `Dashboard.Combine`. */
module SubmissionsPage {
  import Dashboard

  /** `isDeadlineApproaching` (Submissions.tsx:130-136): the deadline is at
      most three days away and not yet reached, measured in fractional
      days. */
  predicate DeadlineApproaching(diff: int)
  {
    var diffDays := (diff as real) / (Dashboard.Day as real);
    diffDays <= 3.0 && diffDays > 0.0
  }

  /** `isDeadlinePassed` (Submissions.tsx:139-143): the deadline lies before
      now. */
  predicate DeadlinePassed(diff: int)
  {
    diff < 0
  }

  /** Approaching means between now (exclusive) and three days from now
      (inclusive), to the millisecond. */
  lemma ApproachingIff(diff: int)
    ensures DeadlineApproaching(diff) <==> 0 < diff <= 3 * Dashboard.Day
  {
    var d := Dashboard.Day as real;
    assert d > 0.0;
    calc <==> {
      (diff as real) / d <= 3.0;
      diff as real <= 3.0 * d;
    }
  }

  /** The status badge text (Submissions.tsx:213-225). */
  function StatusText(diff: int): string
  {
    if DeadlinePassed(diff) then "Deadline passed"
    else if DeadlineApproaching(diff) then "Deadline approaching"
    else "Active"
  }

  /** The badge partitions the deadlines: passed before now, approaching up
      to three days ahead, active otherwise — including a deadline that
      falls exactly now, which is neither passed nor approaching. */
  lemma StatusTextCases(diff: int)
    ensures StatusText(diff) == "Deadline passed" <==> diff < 0
    ensures StatusText(diff) == "Deadline approaching" <==> 0 < diff <= 3 * Dashboard.Day
    ensures StatusText(diff) == "Active" <==> diff == 0 || diff > 3 * Dashboard.Day
  {
    ApproachingIff(diff);
  }

  /** `n === 1 ? singular : plural` (Submissions.tsx:172, 307). */
  function CountLabel(n: int, singular: string, plural: string): string
  {
    if n == 1 then singular else plural
  }

  /** The header reads "assignment" only for exactly one, and each card
      reads "response" only for exactly one. */
  lemma CountLabels(n: int)
    ensures CountLabel(n, "assignment", "assignments") == "assignment" <==> n == 1
    ensures CountLabel(n, "response", "responses") == "response" <==> n == 1
  {
  }
}
