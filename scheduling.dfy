/**
 * The scheduling-intent classifier inside `Queue.dispatch`: an intent string
 * selects exactly one of immediate enqueueing, recurring registration or
 * delayed scheduling.
 */
module Scheduling {
  import opened Wrappers
  import opened Strings

  /** The intent a `when` string expresses, with the string handed to the backend. */
  datatype Intent = Immediate | Recurring(expr: string) | Delayed(when: string)

  /** The argument `when` takes when `dispatch` is called without one. */
  const DefaultWhen: string := "now"

  /** The `when` that `dispatch` works with: the caller's, or the default when omitted. */
  function EffectiveWhen(when: Option<string>): (w: string)
    ensures when.None? ==> w == "now"
    ensures when.Some? ==> w == when.value
  {
    when.GetOr(DefaultWhen)
  }

  /** `when.replace('every ', '')`: the first occurrence of "every " removed. */
  function StripEvery(when: string): (r: string)
    ensures (forall i :: !OccursAt(when, "every ", i)) ==> r == when
    ensures forall i :: FirstAt(when, "every ", i) ==> r == when[..i] + when[i + 6..]
    ensures |r| == if Contains(when, "every ") then |when| - 6 else |when|
  {
    ReplaceFirst(when, "every ", "")
  }

  /** The decision of `dispatch`: "now" first, then the two substring tests, else delayed. */
  function Classify(when: string): (r: Intent)
    ensures r.Immediate? <==> when == "now"
    ensures r.Recurring? ==> r.expr == StripEvery(when)
    ensures r.Delayed? ==> r.when == when
    ensures when != "now" && Contains(when, "*") ==> r.Recurring?
  {
    if when == "now" then Immediate
    else if Contains(when, "every") || Contains(when, "*") then Recurring(StripEvery(when))
    else Delayed(when)
  }

  /** Only the exact, case-sensitive string "now" is immediate. */
  lemma ClassifyImmediate(when: string)
    ensures Classify(when) == Immediate <==> when == "now"
  {
  }

  /** Omitting `when` dispatches immediately. */
  lemma DefaultIsImmediate()
    ensures Classify(EffectiveWhen(None)) == Immediate
  {
  }

  /**
   * A string other than "now" is recurring exactly when "every" or "*" occurs
   * in it, and the recurring expression is the string with its first "every "
   * removed.
   */
  lemma ClassifyRecurring(when: string)
    ensures Classify(when).Recurring? <==>
      when != "now" && ((exists i :: OccursAt(when, "every", i)) || (exists i :: OccursAt(when, "*", i)))
    ensures Classify(when).Recurring? ==> Classify(when).expr == StripEvery(when)
  {
  }

  /** Every other string is delayed and passed on unchanged. */
  lemma ClassifyDelayed(when: string)
    ensures Classify(when).Delayed? <==>
      when != "now" && (forall i :: !OccursAt(when, "every", i)) && (forall i :: !OccursAt(when, "*", i))
    ensures Classify(when).Delayed? ==> Classify(when).when == when
  {
  }

  /** Recurring detection takes priority: a string holding "*" is never delayed. */
  lemma StarNeverDelayed(when: string, i: int)
    requires OccursAt(when, "*", i)
    ensures !Classify(when).Delayed?
  {
  }

  /** Without "every ", the recurring expression is the intent string itself. */
  lemma StripEveryAbsent(when: string)
    requires forall i :: !OccursAt(when, "every ", i)
    ensures StripEvery(when) == when
  {
  }

  /** With "every " first at `i`, exactly those six characters go and nothing else. */
  lemma StripEveryRemovesFirst(when: string, i: int)
    requires FirstAt(when, "every ", i)
    ensures StripEvery(when) == when[..i] + when[i + 6..]
    ensures |StripEvery(when)| == |when| - 6
  {
  }

  /** A leading "every " is stripped as a prefix: "every 5 minutes" becomes "5 minutes". */
  lemma StripEveryPrefix(when: string)
    requires |when| >= 6 && when[..6] == "every "
    ensures StripEvery(when) == when[6..]
  {
    assert OccursAt(when, "every ", 0) by { assert when[0..6] == when[..6]; }
    StripEveryRemovesFirst(when, 0);
  }

  /** An intent starting with "every " is recurring with the rest of the string as its expression. */
  lemma LeadingEveryIsRecurring(when: string)
    requires |when| >= 6 && when[..6] == "every "
    ensures Classify(when) == Recurring(when[6..])
  {
    assert OccursAt(when, "every", 0) by { assert when[0..5] == when[..6][..5]; }
    StripEveryPrefix(when);
  }

  /** Two occurrences of "every " never overlap. */
  lemma EveryDisjoint(when: string, i: int, j: int)
    requires OccursAt(when, "every ", i) && OccursAt(when, "every ", j) && i < j
    ensures i + 6 <= j
  {
    if j < i + 6 {
      // the 'e' at `j` must be the 'e' at offset 2 of the first occurrence,
      // and then the 'v' after it would have to be that occurrence's 'r'
      OccurrenceChar(when, "every ", j, 0, 0);
      OccurrenceChar(when, "every ", i, j - i, 0);
      if j == i + 2 {
        OccurrenceChar(when, "every ", j, 1, 0);
        OccurrenceChar(when, "every ", i, 3, 0);
      }
    }
  }

  /**
   * Only one occurrence is stripped: every other occurrence of "every " in the
   * intent survives in the recurring expression, six places earlier.
   */
  lemma StripEveryOnce(when: string, i: int, j: int)
    requires FirstAt(when, "every ", i) && OccursAt(when, "every ", j) && j != i
    ensures OccursAt(StripEvery(when), "every ", j - 6)
  {
    if j < i {
      // `i` is the first occurrence
      assert false;
    }
    EveryDisjoint(when, i, j);
    StripEveryRemovesFirst(when, i);
    OccursAfterCut(when, "every ", i, 6, j);
  }

  /** "every every 5 minutes" keeps its second "every ": the recurring expression is "every 5 minutes". */
  lemma DoubleEveryKeepsOne(rest: string)
    ensures Classify("every every " + rest) == Recurring("every " + rest)
  {
    var w := "every every " + rest;
    assert w[..6] == "every " && w[6..] == "every " + rest;
    LeadingEveryIsRecurring(w);
  }

  /** "every 5 minutes" registers the recurring expression "5 minutes". */
  lemma EveryFiveMinutes()
    ensures Classify("every 5 minutes") == Recurring("5 minutes")
  {
    LeadingEveryIsRecurring("every 5 minutes");
  }

  /** A cron expression is recurring and passed on unchanged. */
  lemma CronUnchanged()
    ensures Classify("*/5 * * * *") == Recurring("*/5 * * * *")
  {
    var w := "*/5 * * * *";
    assert OccursAt(w, "*", 0);
    Absent(w, "every ", 0, 0);
  }

  /** "everyday" holds "every" but not "every ": recurring, and unchanged. */
  lemma EverydayUnchanged()
    ensures Classify("everyday") == Recurring("everyday")
  {
    var w := "everyday";
    assert OccursAt(w, "every", 0);
    Absent(w, "every ", 5, 0);
  }

  /** "now *" is not exactly "now", and holds "*": recurring. */
  lemma NowStarIsRecurring()
    ensures Classify("now *") == Recurring("now *")
  {
    var w := "now *";
    assert OccursAt(w, "*", 4);
    Absent(w, "every ", 0, 0);
  }

  /** Matching is case-sensitive: "Every 5 minutes" has no "every" and no "*", so it is delayed. */
  lemma CapitalEveryIsDelayed()
    ensures Classify("Every 5 minutes") == Delayed("Every 5 minutes")
  {
    var w := "Every 5 minutes";
    // The only 'v' is at index 1, so an occurrence of "every" would start at
    // index 0, where the capital 'E' stands.
    Absent(w, "every", 1, 2);
    assert !OccursAt(w, "every", 0) by { assert w[0..5][0] == 'E'; }
    Absent(w, "*", 0, 0);
  }

  /** A timestamp is delayed and passed on unchanged. */
  lemma TimestampIsDelayed()
    ensures Classify("2024-01-01T00:00:00Z") == Delayed("2024-01-01T00:00:00Z")
  {
    var w := "2024-01-01T00:00:00Z";
    Absent(w, "every", 0, 0);
    Absent(w, "*", 0, 0);
  }
}
