/** What triage decides about an unsettled record that owes no model step, said on the record's own
    fields, the calendar's answers and the date of the run. */
module ScoringTriage {
  import opened Options
  import opened OnlineLearning
  import opened PredictionRecords
  import opened ScoringRun

  /** The target date the record has, or the calendar gives a record of the legacy horizon. */
  predicate Places(env: RunEnv, p: Prediction, t: StoredDate) {
    || p.target == Some(t)
    || (p.target.None? && p.horizonType == LEGACY_HORIZON && p.base.Some?
        && env.calendar.legacyTarget(p.base.value).ok && env.calendar.legacyTarget(p.base.value).target == Some(t))
  }

  predicate OnCalendar(env: RunEnv, t: StoredDate) {
    t.Known? && (env.calendar.listed ==> env.calendar.has(t))
  }

  predicate BaseBefore(p: Prediction, day: int) {
    p.base.Some? && p.base.value.Known? ==> p.base.value.day < day
  }

  /** The record's target day has come: a known day of the calendar, after the base day and no later
      than the date of the run. */
  predicate DueOn(env: RunEnv, p: Prediction, day: int) {
    Places(env, p, Known(day)) && OnCalendar(env, Known(day)) && BaseBefore(p, day) && env.asOf.Some? && day <= env.asOf.value
  }

  /** No usable target date. */
  ghost predicate Undated(env: RunEnv, p: Prediction) {
    forall t :: Places(env, p, t) ==> !OnCalendar(env, t)
  }

  /** The record after the calendar could not place it. */
  predicate TargetCleared(p: Prediction, q: Prediction) {
    && q.target.None? && CALENDAR_MISSING in q.missing
    && (if IsLegacy(p) then q.status.CalendarPending? else q.status.NoStatus? && !IsLegacy(q))
  }

  lemma {:induction false} MergedHolds(base: seq<string>, extra: seq<string>)
    ensures base <= Merged(base, extra) && forall k :: 0 <= k < |extra| ==> extra[k] in Merged(base, extra)
  {
    if extra != [] {
      MergedHolds(base, extra[..|extra|-1]);
    }
  }

  lemma ClearedBy(p: Prediction, next: TargetDateStatus)
    ensures TargetCleared(p, CalendarAnnotated(p, next))
  {
    MergedHolds(p.missing, [CALENDAR_MISSING]);
    assert [CALENDAR_MISSING][0] in Merged(p.missing, [CALENDAR_MISSING]);
    hide Merged;
  }

  /** A plan on fields: due exactly when the target day has come; to the calendar exactly when no
      target date is usable, the target then being cleared; and waiting otherwise, with a rejection
      noted exactly when the target is not after the base, and PENDING if not. */
  ghost predicate PlansOnFields(env: RunEnv, p: Prediction, plan: Plan) {
    && (plan.Due? <==> exists day :: DueOn(env, p, day))
    && (forall day :: DueOn(env, p, day) ==> plan.Due? && plan.day == day)
    && (plan.NeedsCalendar? <==> Undated(env, p))
    && (plan.NeedsCalendar? ==> TargetCleared(p, plan.p))
    && (plan.Wait? ==> exists day :: WaitsFor(env, p, day, plan.p))
  }

  predicate WaitsFor(env: RunEnv, p: Prediction, day: int, q: Prediction) {
    && Places(env, p, Known(day)) && OnCalendar(env, Known(day)) && q.target == Some(Known(day))
    && if !BaseBefore(p, day) then q.targetRejected else q.status == WithStatus(q, Pending).status
  }

  lemma PlanOnFields(env: RunEnv, p: Prediction)
    ensures PlansOnFields(env, p, PlanFor(env, p))
  {
    hide PlansOnFields, DatedPlan, CalendarAnnotated;
    if p.target.Some? {
      DatedOnFields(env, p, p, p.target.value, false);
    } else if p.horizonType == LEGACY_HORIZON && p.base.Some? {
      var answer := env.calendar.legacyTarget(p.base.value);
      if answer.ok && answer.target.Some? {
        DatedOnFields(env, p, Redated(p, answer), answer.target.value, true);
      } else {
        UndatedOnFields(env, p, StatusOfAnswer(answer), false);
      }
    } else {
      UndatedOnFields(env, p, NoTargetStatus, false);
    }
  }

  lemma UndatedOnFields(env: RunEnv, p: Prediction, next: TargetDateStatus, changed: bool)
    requires forall t :: !Places(env, p, t)
    ensures PlansOnFields(env, p, CalendarPlan(p, next, changed))
  {
    ClearedBy(p, next);
    hide CalendarAnnotated;
  }

  lemma DatedOnFields(env: RunEnv, p: Prediction, q: Prediction, t: StoredDate, changed: bool)
    requires q.target == Some(t) && q.base == p.base && (IsLegacy(q) <==> IsLegacy(p))
    requires forall u :: Places(env, p, u) <==> u == t
    ensures PlansOnFields(env, p, DatedPlan(env, q, changed))
  {
    ClearedBy(q, NoTargetStatus);
    hide Merged, CalendarAnnotated, Sanitized, Places;
    assert Undated(env, p) <==> !OnCalendar(env, t);
    var plan := DatedPlan(env, q, changed);
    if OnCalendar(env, t) {
      assert DueOn(env, p, t.day) <==> plan.Due?;
      assert plan.Wait? ==> WaitsFor(env, p, t.day, plan.p);
    }
  }
}
