/** The over-budget alert computation of the database layer: given the
    per-category spending totals (the rows of the `GROUP BY category`
    summary) and a fixed table of limits, one alert is produced, in summary
    order, for each category that has a limit and whose total is strictly
    above it. */
module BudgetCheck {
  import opened Wrappers

  /** One summary row: a category and its `SUM(amount)`. SQL's `SUM` over a
      group whose amounts are all NULL is NULL, which arrives as `None`. */
  datatype Row = Row(category: string, total: Option<real>)

  /** An over-budget warning: the category and by how much its total
      exceeds its limit (rendered by the program as a message with the
      excess to two decimals). */
  datatype Alert = Alert(category: string, excess: real)

  /** Comparing a NULL total with its limit raises a type error; the
      comprehension stops at the first such row. */
  datatype CheckError = NullTotal(category: string)

  /** The fixed limit table. */
  const Limits: map<string, real> :=
    map["groceries" := 200.0, "dining" := 100.0, "transportation" := 50.0, "other" := 150.0]

  /** The row has a limit and a NULL total: checking it raises. */
  predicate Raises(row: Row) {
    row.category in Limits && row.total.None?
  }

  /** The row has a limit and a total strictly above it. */
  predicate Exceeds(row: Row) {
    row.category in Limits && row.total.Some? && row.total.value > Limits[row.category]
  }

  /** The alert an exceeding row produces. */
  function AlertFor(row: Row): (r: Alert)
    requires Exceeds(row)
  {
    Alert(row.category, row.total.value - Limits[row.category])
  }

  /** The list comprehension of `check_budget_from_db`, over the summary rows
      in order. */
  function CheckBudget(summary: seq<Row>): (r: Result<seq<Alert>, CheckError>)
    ensures r.Failure? <==> exists i :: 0 <= i < |summary| && Raises(summary[i])
    ensures r.Failure? ==>
      exists i :: 0 <= i < |summary| && Raises(summary[i]) &&
        r.error == NullTotal(summary[i].category) &&
        forall j :: 0 <= j < i ==> !Raises(summary[j])
    ensures r.Success? ==> |r.value| <= |summary|
    ensures r.Success? ==> forall a :: a in r.value ==> a.category in Limits && a.excess > 0.0
  {
    if summary == [] then Success([])
    else
      var row := summary[0];
      if row.category !in Limits then CheckBudget(summary[1..])
      else match row.total
        case None => Failure(NullTotal(row.category))
        case Some(total) =>
          var limit := Limits[row.category];
          if total > limit then
            match CheckBudget(summary[1..])
            case Success(rest) => Success([Alert(row.category, total - limit)] + rest)
            case Failure(e) => Failure(e)
          else CheckBudget(summary[1..])
  }

  /** An alert is reported exactly for each row that has a limit and a total
      strictly above it, and it carries that total minus the limit. */
  lemma {:induction false} AlertsAreExceedingRows(summary: seq<Row>)
    requires CheckBudget(summary).Success?
    ensures forall a :: a in CheckBudget(summary).value <==>
      exists i :: 0 <= i < |summary| && Exceeds(summary[i]) && a == AlertFor(summary[i])
  {
    if summary != [] {
      AlertsAreExceedingRows(summary[1..]);
      var alerts := CheckBudget(summary).value;
      var rest := CheckBudget(summary[1..]).value;
      assert alerts == (if Exceeds(summary[0]) then [AlertFor(summary[0])] else []) + rest;
      forall a | a in alerts
        ensures exists i :: 0 <= i < |summary| && Exceeds(summary[i]) && a == AlertFor(summary[i])
      {
        if a !in rest {
          assert Exceeds(summary[0]) && a == AlertFor(summary[0]);
        } else {
          var i :| 0 <= i < |summary[1..]| && Exceeds(summary[1..][i]) && a == AlertFor(summary[1..][i]);
          assert summary[1..][i] == summary[i + 1];
        }
      }
      forall i | 0 <= i < |summary| && Exceeds(summary[i])
        ensures AlertFor(summary[i]) in alerts
      {
        if i > 0 {
          assert summary[1..][i - 1] == summary[i];
        }
      }
    }
  }

  /** Alerts keep summary order: the alerts of a summary split in two are
      those of the first part followed by those of the second, and a type
      error in the first part is raised before the second is looked at. */
  lemma {:induction false} CheckBudgetAppend(first: seq<Row>, second: seq<Row>)
    ensures CheckBudget(first).Failure? ==> CheckBudget(first + second) == CheckBudget(first)
    ensures CheckBudget(first).Success? && CheckBudget(second).Failure? ==>
      CheckBudget(first + second) == CheckBudget(second)
    ensures CheckBudget(first).Success? && CheckBudget(second).Success? ==>
      CheckBudget(first + second) == Success(CheckBudget(first).value + CheckBudget(second).value)
  {
    if first == [] {
      assert first + second == second;
      if CheckBudget(second).Success? {
        assert [] + CheckBudget(second).value == CheckBudget(second).value;
      }
    } else {
      var row, tail := first[0], first[1..];
      assert first == [row] + tail;
      assert first + second == [row] + (tail + second);
      CheckBudgetAppend(tail, second);
      HeadStep(row, tail);
      HeadStep(row, tail + second);
      if Exceeds(row) && CheckBudget(tail).Success? && CheckBudget(second).Success? {
        var head, rest, later := [AlertFor(row)], CheckBudget(tail).value, CheckBudget(second).value;
        assert head + (rest + later) == (head + rest) + later;
      }
    }
  }

  /** A row whose category has no limit (such as "entertainment") never
      produces an alert and never raises: removing it changes nothing. */
  lemma UnlimitedCategoryIgnored(before: seq<Row>, row: Row, after: seq<Row>)
    requires row.category !in Limits
    ensures CheckBudget(before + [row] + after) == CheckBudget(before + after)
  {
    CheckBudgetAppend(before, [row] + after);
    CheckBudgetAppend(before, after);
    assert before + [row] + after == before + ([row] + after);
    assert ([row] + after)[1..] == after;
  }

  /** When every limited category has a total at or below its limit, there
      are no alerts. */
  lemma {:induction false} WithinLimitsNoAlerts(summary: seq<Row>)
    requires forall i :: 0 <= i < |summary| && summary[i].category in Limits ==>
      summary[i].total.Some? && summary[i].total.value <= Limits[summary[i].category]
    ensures CheckBudget(summary) == Success([])
  {
    if summary != [] {
      WithinLimitsNoAlerts(summary[1..]);
    }
  }

  /** The summary has one row per category (it comes from a `GROUP BY`). */
  predicate DistinctCategories(summary: seq<Row>) {
    forall i, j :: 0 <= i < j < |summary| ==> summary[i].category != summary[j].category
  }

  /** With one row per category there is at most one alert per category. */
  lemma {:induction false} OneAlertPerCategory(summary: seq<Row>)
    requires DistinctCategories(summary)
    requires CheckBudget(summary).Success?
    ensures forall k, l :: 0 <= k < l < |CheckBudget(summary).value| ==>
      CheckBudget(summary).value[k].category != CheckBudget(summary).value[l].category
  {
    if summary != [] {
      var row, rest := summary[0], summary[1..];
      assert summary == [row] + rest;
      DistinctRest(summary);
      OneAlertPerCategory(rest);
      HeadStep(row, rest);
      if Exceeds(row) {
        var later := CheckBudget(rest).value;
        HeadNotAlertedLater(summary);
        var alerts := [AlertFor(row)] + later;
        forall k, l | 0 <= k < l < |alerts| ensures alerts[k].category != alerts[l].category {
          assert alerts[l] == later[l - 1];
          if k > 0 {
            assert alerts[k] == later[k - 1];
          }
        }
      }
    }
  }

  lemma DistinctRest(summary: seq<Row>)
    requires summary != [] && DistinctCategories(summary)
    ensures DistinctCategories(summary[1..])
  {
    var rest := summary[1..];
    forall i, j | 0 <= i < j < |rest| ensures rest[i].category != rest[j].category {
      assert rest[i] == summary[i + 1] && rest[j] == summary[j + 1];
    }
  }

  /** With one row per category, no later row alerts for the first row's category. */
  lemma HeadNotAlertedLater(summary: seq<Row>)
    requires summary != [] && DistinctCategories(summary)
    requires CheckBudget(summary[1..]).Success?
    ensures forall a | a in CheckBudget(summary[1..]).value :: a.category != summary[0].category
  {
    var rest := summary[1..];
    AlertsAreExceedingRows(rest);
    forall a | a in CheckBudget(rest).value ensures a.category != summary[0].category {
      var i :| 0 <= i < |rest| && Exceeds(rest[i]) && a == AlertFor(rest[i]);
      assert rest[i] == summary[i + 1];
    }
  }

  /** How the first row of a summary contributes to the result. */
  lemma HeadStep(row: Row, rest: seq<Row>)
    ensures Raises(row) ==> CheckBudget([row] + rest) == Failure(NullTotal(row.category))
    ensures !Raises(row) && !Exceeds(row) ==> CheckBudget([row] + rest) == CheckBudget(rest)
    ensures Exceeds(row) && CheckBudget(rest).Failure? ==> CheckBudget([row] + rest) == CheckBudget(rest)
    ensures Exceeds(row) && CheckBudget(rest).Success? ==>
      CheckBudget([row] + rest) == Success([AlertFor(row)] + CheckBudget(rest).value)
  {
    assert ([row] + rest)[0] == row;
    assert ([row] + rest)[1..] == rest;
  }

  /** A total exactly at its limit is not over it: the row adds no alert. */
  lemma TotalAtLimitNoAlert(row: Row, rest: seq<Row>)
    requires row.category in Limits && row.total == Some(Limits[row.category])
    ensures CheckBudget([row] + rest) == CheckBudget(rest)
  {
    HeadStep(row, rest);
  }

  /** A total exactly at its limit is not an alert, an unlimited category is
      skipped, and an over-limit total reports its excess. */
  lemma SampleSummary()
    ensures CheckBudget([
      Row("groceries", Some(250.0)),
      Row("entertainment", Some(999.0)),
      Row("dining", Some(100.0)),
      Row("transportation", Some(50.5))
    ]) == Success([Alert("groceries", 50.0), Alert("transportation", 0.5)])
  {
    var groceries, entertainment := Row("groceries", Some(250.0)), Row("entertainment", Some(999.0));
    var dining, transportation := Row("dining", Some(100.0)), Row("transportation", Some(50.5));
    assert Limits["groceries"] == 200.0 && Limits["dining"] == 100.0 && Limits["transportation"] == 50.0;
    assert AlertFor(transportation) == Alert("transportation", 0.5);
    assert AlertFor(groceries) == Alert("groceries", 50.0);
    assert CheckBudget([]) == Success([]);
    HeadStep(transportation, []);
    assert [transportation] + [] == [transportation];
    assert [AlertFor(transportation)] + [] == [Alert("transportation", 0.5)];
    assert CheckBudget([transportation]) == Success([Alert("transportation", 0.5)]);
    HeadStep(dining, [transportation]);
    assert [dining] + [transportation] == [dining, transportation];
    HeadStep(entertainment, [dining, transportation]);
    assert [entertainment] + [dining, transportation] == [entertainment, dining, transportation];
    assert CheckBudget([entertainment, dining, transportation]) == Success([Alert("transportation", 0.5)]);
    HeadStep(groceries, [entertainment, dining, transportation]);
    assert [groceries] + [entertainment, dining, transportation] == [groceries, entertainment, dining, transportation];
    assert [Alert("groceries", 50.0)] + [Alert("transportation", 0.5)] == [Alert("groceries", 50.0), Alert("transportation", 0.5)];
  }

  /** A NULL total in a limited category raises; in an unlimited one it is
      skipped. */
  lemma NullTotalRaises()
    ensures CheckBudget([Row("entertainment", None), Row("other", None)]) == Failure(NullTotal("other"))
  {
  }
}
