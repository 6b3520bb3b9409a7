/** The decile progress reporter of the sequential backend (`Forward.progress`). */
module Progress {
  import opened Outcome
  import opened Arith

  /** `progressIndex`: the last decile reported, -1 before any report. */
  datatype Reporter = Reporter(index: int)

  const Fresh: Reporter := Reporter(-1)

  /** `floor(ind / total * 10)` in exact arithmetic. */
  function Decile(ind: nat, total: nat): nat
    requires total > 0
  {
    Quot(ind * 10, total)
  }

  /** One call `progress(ind, total)`: report the decile when it is above the last one reported. */
  function Tick(r: Reporter, ind: nat, total: nat): (out: (Reporter, Option<nat>))
    requires total > 0
    ensures out.0.index == if r.index < Decile(ind, total) then Decile(ind, total) else r.index
    ensures out.1.Some? <==> out.0.index != r.index
    ensures out.1.Some? ==> out.1.value == out.0.index
  {
    var d := Decile(ind, total);
    if d > r.index then (Reporter(d), Some(d)) else (r, None)
  }

  /** The reporter and the deciles reported after the calls `progress(0, total)` up to
      `progress(n - 1, total)`. */
  datatype Trace = Trace(reporter: Reporter, reports: seq<nat>)

  function Emitted(said: Option<nat>): seq<nat>
  {
    if said.Some? then [said.value] else []
  }

  function Run(total: nat, n: nat): Trace
    requires n <= total
  {
    if n == 0 then Trace(Fresh, [])
    else
      var prev := Run(total, n - 1);
      var out := Tick(prev.reporter, n - 1, total);
      Trace(out.0, prev.reports + Emitted(out.1))
  }

  lemma DecileMonotone(i: nat, j: nat, total: nat)
    requires i <= j && total > 0
    ensures Decile(i, total) <= Decile(j, total)
  {
    QuotIsDivision(i * 10, total);
    QuotIsDivision(j * 10, total);
    DivMonotone(i * 10, j * 10, total);
  }

  lemma DecileBelowTen(i: nat, total: nat)
    requires i < total
    ensures Decile(i, total) <= 9
  {
    QuotIsDivision(i * 10, total);
    DivBelow(i * 10, total, 10);
  }

  /** Over the calls with `ind = 0 .. n-1`, the reporter reports every decile reached exactly
      once, in strictly increasing order, starting from 0, and keeps the latest decile. */
  lemma {:induction false} RunReportsEachDecileOnce(total: nat, n: nat)
    requires n <= total
    ensures var t := Run(total, n);
      && (n == 0 ==> t == Trace(Fresh, []))
      && (n > 0 ==> t.reporter.index == Decile(n - 1, total))
      && (n > 0 ==> |t.reports| > 0 && t.reports[0] == 0 && t.reports[|t.reports| - 1] == Decile(n - 1, total))
      && StrictlyIncreasing(t.reports)
      && (forall a :: 0 <= a < |t.reports| ==> t.reports[a] <= 9)
      && (forall d :: d in t.reports <==> exists i :: 0 <= i < n && Decile(i, total) == d)
  {
    if n > 0 {
      RunReportsEachDecileOnce(total, n - 1);
      var prev := Run(total, n - 1);
      var d := Decile(n - 1, total);
      DecileBelowTen(n - 1, total);
      if n == 1 {
        assert d == 0;
      } else {
        DecileMonotone(n - 2, n - 1, total);
      }
      var t := Run(total, n);
      forall dd | dd in t.reports
        ensures exists i :: 0 <= i < n && Decile(i, total) == dd
      {
        if dd !in prev.reports {
          assert Decile(n - 1, total) == dd;
        }
      }
      forall dd | exists i :: 0 <= i < n && Decile(i, total) == dd
        ensures dd in t.reports
      {
        var i :| 0 <= i < n && Decile(i, total) == dd;
        if i < n - 1 {
          assert dd in prev.reports;
        } else if d == prev.reporter.index {
          assert Decile(n - 2, total) == dd;
          assert dd in prev.reports;
        }
      }
    }
  }
}
