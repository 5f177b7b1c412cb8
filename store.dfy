/**
 * The `entries` table of main.py (main.py:16-36, 108-148): one row per date,
 * eight text columns, written by `save_entry`, read by `load_entry` and listed
 * by `get_all_dates`. The `date` column is `UNIQUE`, so the table is a map
 * from date strings to entries.
 */
module Store {
  import opened Wrappers

  /** The eight text columns of a row, in the order `load_entry` returns them. */
  datatype Entry = Entry(
    journal: string,
    intention: string,
    dream: string,
    priorities: string,
    reflection: string,
    dreamInterpretation: string,
    mindsetInsight: string,
    strategy: string)

  // ------------------------------------------------------------- text order

  /**
   * `a` sorts before `b` in SQLite's default BINARY collation: the first
   * differing character decides, and a proper prefix sorts first. Comparing
   * UTF-8 bytes orders texts as comparing their code points does.
   */
  predicate Below(a: string, b: string)
    decreases |a|
  {
    if |a| == 0 then |b| > 0
    else if |b| == 0 then false
    else if a[0] != b[0] then a[0] < b[0]
    else Below(a[1..], b[1..])
  }

  lemma {:induction false} BelowIrreflexive(a: string)
    ensures !Below(a, a)
    decreases |a|
  {
    if |a| > 0 {
      BelowIrreflexive(a[1..]);
    }
  }

  lemma {:induction false} BelowTransitive(a: string, b: string, c: string)
    requires Below(a, b) && Below(b, c)
    ensures Below(a, c)
    decreases |a|
  {
    if |a| > 0 && a[0] == b[0] && b[0] == c[0] {
      BelowTransitive(a[1..], b[1..], c[1..]);
    }
  }

  /** Two different texts are ordered one way or the other. */
  lemma {:induction false} BelowTotal(a: string, b: string)
    requires a != b
    ensures Below(a, b) || Below(b, a)
    decreases |a|
  {
    if |a| > 0 && |b| > 0 && a[0] == b[0] {
      assert a == [a[0]] + a[1..] && b == [b[0]] + b[1..];
      BelowTotal(a[1..], b[1..]);
    }
  }

  /** Dates listed from the latest to the earliest, none twice. */
  predicate StrictlyDescending(ds: seq<string>) {
    forall i, j :: 0 <= i < j < |ds| ==> Below(ds[j], ds[i])
  }

  /** A strictly descending listing names no date twice (`DISTINCT`). */
  lemma DescendingHasNoRepeats(ds: seq<string>)
    requires StrictlyDescending(ds)
    ensures forall i, j :: 0 <= i < j < |ds| ==> ds[i] != ds[j]
  {
    forall i, j | 0 <= i < j < |ds|
      ensures ds[i] != ds[j]
    {
      BelowIrreflexive(ds[i]);
    }
  }

  /** Only one strictly descending listing has a given set of dates. */
  lemma {:induction false} DescendingUnique(xs: seq<string>, ys: seq<string>)
    requires StrictlyDescending(xs) && StrictlyDescending(ys)
    requires forall d :: d in xs <==> d in ys
    ensures xs == ys
    decreases |xs|
  {
    if |ys| > 0 {
      assert ys[0] in xs;
    }
    if |xs| > 0 {
      assert xs[0] in ys;
      if xs[0] != ys[0] {
        assert ys[0] in xs;
        var i :| 0 <= i < |xs| && xs[i] == ys[0];
        var j :| 0 <= j < |ys| && ys[j] == xs[0];
        BelowTransitive(xs[0], ys[0], xs[0]);
        BelowIrreflexive(xs[0]);
        assert false;
      }
      forall d
        ensures d in xs[1..] <==> d in ys[1..]
      {
        if d in xs[1..] {
          var i :| 1 <= i < |xs| && xs[i] == d;
          assert Below(d, xs[0]);
          BelowIrreflexive(d);
          assert d in xs && d in ys;
          var j :| 0 <= j < |ys| && ys[j] == d;
          assert ys[1..][j - 1] == d;
        }
        if d in ys[1..] {
          var j :| 1 <= j < |ys| && ys[j] == d;
          assert Below(d, ys[0]);
          BelowIrreflexive(d);
          assert d in ys && d in xs;
          var i :| 0 <= i < |xs| && xs[i] == d;
          assert xs[1..][i - 1] == d;
        }
      }
      DescendingUnique(xs[1..], ys[1..]);
      assert xs == [xs[0]] + xs[1..] && ys == [ys[0]] + ys[1..];
    }
  }

  /** The greatest text of a non-empty set: the first row of `ORDER BY date DESC`. */
  method Greatest(ds: set<string>) returns (g: string)
    requires ds != {}
    ensures g in ds && forall d :: d in ds && d != g ==> Below(d, g)
  {
    g :| g in ds;
    var rest := ds - {g};
    while rest != {}
      invariant g in ds && rest <= ds && g !in rest
      invariant forall d :: d in ds && d !in rest && d != g ==> Below(d, g)
      decreases |rest|
    {
      var d :| d in rest;
      if Below(g, d) {
        forall c | c in ds && c !in rest && c != g
          ensures Below(c, d)
        {
          BelowTransitive(c, g, d);
        }
        g := d;
      } else if d != g {
        BelowTotal(d, g);
      }
      rest := rest - {d};
    }
  }

  // ------------------------------------------------------------- the table

  /** What `load_entry` finds for `date`: the row's columns, or nothing. */
  function Lookup(entries: map<string, Entry>, date: string): (r: Option<Entry>)
    ensures r.Some? <==> date in entries
  {
    if date in entries then Some(entries[date]) else None
  }

  /** The table after `save_entry`: the row for `date` inserted, or replaced in all eight columns. */
  function Saved(entries: map<string, Entry>, date: string, e: Entry): (r: map<string, Entry>)
    ensures r.Keys == entries.Keys + {date}
  {
    entries[date := e]
  }

  /** Saving and then loading the same date gives back exactly the eight values saved. */
  lemma SaveThenLoad(entries: map<string, Entry>, date: string, e: Entry)
    ensures Lookup(Saved(entries, date, e), date) == Some(e)
  {
  }

  /** A second save for a date replaces every column of the first. */
  lemma SaveOverwrites(entries: map<string, Entry>, date: string, e1: Entry, e2: Entry)
    ensures Saved(Saved(entries, date, e1), date, e2) == Saved(entries, date, e2)
  {
  }

  /** Saving one date leaves every other date's row as it was. */
  lemma SaveKeepsOthers(entries: map<string, Entry>, date: string, e: Entry, other: string)
    requires other != date
    ensures Lookup(Saved(entries, date, e), other) == Lookup(entries, other)
  {
  }

  /** Saving never removes a date from the list of dates. */
  lemma SaveListsDate(entries: map<string, Entry>, date: string, e: Entry, d: string)
    ensures d in Saved(entries, date, e) <==> d == date || d in entries
  {
  }

  /** The SQLite database file `entries.db`, seen as its one table. */
  class EntryStore {
    var entries: map<string, Entry>

    /** A fresh database: `create_database` on a missing file. */
    constructor()
      ensures entries == map[]
    {
      entries := map[];
    }

    /** `save_entry`: `INSERT ... ON CONFLICT(date) DO UPDATE` of all eight columns. */
    method SaveEntry(date: string, journal: string, intention: string, dream: string, priorities: string,
                     reflection: string, dreamInterpretation: string, mindsetInsight: string, strategy: string)
      modifies this
      ensures entries == Saved(old(entries), date,
        Entry(journal, intention, dream, priorities, reflection, dreamInterpretation, mindsetInsight, strategy))
    {
      entries := entries[date := Entry(journal, intention, dream, priorities, reflection, dreamInterpretation, mindsetInsight, strategy)];
    }

    /** `load_entry`: the row for `date`, or `None` (`fetchone()` finding nothing). */
    method LoadEntry(date: string) returns (r: Option<Entry>)
      ensures r == Lookup(entries, date)
    {
      if date in entries {
        r := Some(entries[date]);
      } else {
        r := None;
      }
    }

    /**
     * `get_all_dates`: `SELECT DISTINCT date ... ORDER BY date DESC`, read as
     * the database produces it, the greatest remaining date first.
     */
    method GetAllDates() returns (dates: seq<string>)
      ensures StrictlyDescending(dates)
      ensures forall d :: d in dates <==> d in entries
    {
      var rest := entries.Keys;
      dates := [];
      while rest != {}
        invariant rest <= entries.Keys
        invariant forall d :: d in entries ==> (d in dates <==> d !in rest)
        invariant forall d :: d in dates ==> d in entries
        invariant StrictlyDescending(dates)
        invariant forall d, i :: d in rest && 0 <= i < |dates| ==> Below(d, dates[i])
        decreases |rest|
      {
        var g := Greatest(rest);
        dates := dates + [g];
        rest := rest - {g};
      }
    }
  }
}
