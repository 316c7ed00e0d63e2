/** When `predict` records a prediction and what the record holds, on the request's own fields. */
module RecordedPredictions {
  import opened Options
  import opened OnlineLearning
  import opened PredictionRecords
  import opened PredictionLifecycle

  /** A candle flagged not final or in an open session never counts, a final flag or a closed session
      does, and without either the candle must be of a day before the data. */
  ghost predicate CandleIsFinal(r: Request, base: int) {
    && (r.candle.Some? ==> r.candle.value.isFinal != Some(false) && !r.candle.value.session.Open?)
    && (|| (r.candle.Some? && (r.candle.value.isFinal == Some(true) || r.candle.value.session.Closed?))
        || (r.asOf.Some? && base < r.asOf.value))
  }

  ghost predicate HorizonIsKnown(r: Request) {
    r.horizonType == "LEGACY_7_CALENDAR_DAYS" || (r.horizonDays.Some? && r.horizonDays.value >= 1)
  }

  /** What the calendar answers for the request's horizon. */
  ghost predicate Answers(cal: Calendar, r: Request, base: int, a: CalendarAnswer) {
    && (r.horizonType == "LEGACY_7_CALENDAR_DAYS" ==> a == cal.legacyTarget(Known(base)))
    && (r.horizonType != "LEGACY_7_CALENDAR_DAYS" && r.horizonDays.Some? ==> a == cal.addTradingDays(Known(base), r.horizonDays.value))
  }

  /** The horizon and the date are accepted by the calendar, and a target lies after the base. */
  ghost predicate TargetIsLater(a: CalendarAnswer, base: int) {
    && (a.ok && a.target.Some? && a.target.value.Known? ==> base < a.target.value.day)
    && (!a.ok ==> a.code !in {HorizonCode, DateFormatCode})
  }

  /** All six identifying fields of a stored record are those of the request. */
  ghost predicate SameSix(p: Prediction, r: Request, base: int) {
    && p.symbol == r.symbol && p.base == Some(Known(base)) && p.horizonType == r.horizonType
    && p.horizonDays == (if r.horizonType == "LEGACY_7_CALENDAR_DAYS" then None else r.horizonDays)
    && p.modelVersion == r.modelVersion && p.featureVersion == r.featureVersion
  }

  /** A request may be recorded when its base date parses and is no later than the data, its horizon is
      known, its candle final, its target later, and its close positive; a caller that states the candle's
      finality must not state it unknown or not final. */
  ghost predicate MayRecord(cal: Calendar, r: Request, base: int) {
    && r.base == Some(base)
    && (r.asOf.Some? ==> base <= r.asOf.value)
    && HorizonIsKnown(r) && CandleIsFinal(r, base)
    && r.finality !in {Some(NotFinalCandle), Some(UnknownFinality)}
    && (forall a :: Answers(cal, r, base, a) ==> TargetIsLater(a, base))
    && r.close.Some? && r.close.value > 0.0
  }

  lemma RecordableIff(cal: Calendar, r: Request, base: int)
    requires r.base == Some(base)
    ensures Recordable(cal, r) <==> MayRecord(cal, r, base)
  {
    if HorizonIsKnown(r) {
      var a := TargetAnswer(cal, r);
      assert Answers(cal, r, base, a);
      assert TargetIsLater(a, base) <==> TargetAccepted(base, a);
    }
  }

  /** A prediction is recorded exactly when it may be and no stored record has its six fields. */
  lemma RecordedIff(cal: Calendar, preds: seq<Prediction>, r: Request, id: string)
    ensures Predicted(cal, preds, r, id).Some? <==>
              exists base :: MayRecord(cal, r, base) && forall p <- preds :: !SameSix(p, r, base)
  {
    if r.base.Some? {
      var base := r.base.value;
      RecordableIff(cal, r, base);
      if Recordable(cal, r) {
        DraftKeyIs(cal, r, id);
        hide Draft, Recordable, MayRecord;
        var key := KeyOf(Draft(cal, r, id));
        assert IsDuplicate(preds, key) <==> exists p <- preds :: SameSix(p, r, base) by {
          if p :| p in preds && SameSix(p, r, base) {
            var i :| 0 <= i < |preds| && preds[i] == p;
            assert KeyOf(preds[i]) == key;
          }
        }
      }
    }
  }

  lemma DraftKeyIs(cal: Calendar, r: Request, id: string)
    requires Recordable(cal, r)
    ensures forall p :: KeyOf(p) == KeyOf(Draft(cal, r, id)) <==> SameSix(p, r, r.base.value)
  {
    hide Merged;
  }

  /** The target status of a record without a target: what the calendar says unless it claims one, and
      otherwise what its code stands for. */
  ghost function WithoutTarget(a: CalendarAnswer): TargetDateStatus {
    if a.ok || a.target.Some? || a.targetStatus.Confirmed? then TargetPending
    else if a.targetStatus != NoTargetStatus then a.targetStatus
    else match a.code case RangeCode => TargetOutOfRange case ConflictCode => TargetConflict case _ => TargetPending
  }

  /** The record holds the request's symbol, base, features and close, nothing of an outcome, the
      target the calendar gave, and the flag "isFinal" among what is missing exactly when the candle did
      not say it was final or the calendar's answer names it. */
  lemma RecordCarriesRequest(cal: Calendar, r: Request, id: string, base: int, a: CalendarAnswer)
    requires Recordable(cal, r) && r.base == Some(base) && Answers(cal, r, base, a)
    ensures var p := Draft(cal, r, id);
            && p.id == id && SameSix(p, r, base) && p.features == Some(r.features) && p.entry == r.close
            && p.targetClose.None? && p.correct.None? && p.actualUp.None? && p.operationId.None?
            && !p.resolved && !p.targetRejected && p.modelUpdate.NotRequested?
            && p.target == (if a.ok then a.target else None)
            && (p.targetStatus.Confirmed? <==> p.target.Some?)
            && (p.target.None? ==> p.targetStatus == WithoutTarget(a))
            && p.status == (if p.target.Some? then Pending else NoStatus)
            && (forall item :: item in p.missing <==>
                  item in a.missing || (item == "isFinal" && !(r.candle.Some? && (r.candle.value.isFinal == Some(true) || r.candle.value.session.Closed?))))
  {
    assert a == TargetAnswer(cal, r);
    MergedMembers(if SaysFinal(r.candle) then [] else ["isFinal"], a.missing);
    hide Merged;
  }

  lemma {:induction false} MergedMembers(base: seq<string>, extra: seq<string>)
    ensures forall item :: item in Merged(base, extra) <==> item in base || item in extra
  {
    if extra != [] {
      MergedMembers(base, extra[..|extra|-1]);
      assert extra == extra[..|extra|-1] + [extra[|extra|-1]];
    }
  }
}
