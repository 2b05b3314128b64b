// `datetime.now(timezone.utc).isoformat(timespec="seconds")`: the queue compares these texts, not times.
module IsoTime {
  import opened StringOrder

  datatype Date = Date(year: nat, month: nat, day: nat)

  predicate Leap(y: nat) { y % 4 == 0 && (y % 100 != 0 || y % 400 == 0) }

  function DaysIn(y: nat, m: nat): nat {
    if m == 2 then (if Leap(y) then 29 else 28)
    else if m == 4 || m == 6 || m == 9 || m == 11 then 30
    else 31
  }

  predicate ValidDate(d: Date) {
    1 <= d.month <= 12 && 1 <= d.day <= DaysIn(d.year, d.month)
  }

  function NextDay(d: Date): Date {
    if d.day < DaysIn(d.year, d.month) then Date(d.year, d.month, d.day + 1)
    else if d.month < 12 then Date(d.year, d.month + 1, 1)
    else Date(d.year + 1, 1, 1)
  }

  // The Gregorian date a number of days after 1 January 1970.
  function DateOf(days: nat): (d: Date)
    ensures ValidDate(d)
  {
    if days == 0 then Date(1970, 1, 1) else NextDay(DateOf(days - 1))
  }

  predicate Earlier(d: Date, e: Date) {
    d.year < e.year || (d.year == e.year && (d.month < e.month || (d.month == e.month && d.day < e.day)))
  }

  lemma {:induction false} LaterDaysHaveLaterDates(m: nat, n: nat)
    requires m < n
    ensures Earlier(DateOf(m), DateOf(n))
  {
    if m < n - 1 {
      LaterDaysHaveLaterDates(m, n - 1);
    }
  }

  // ---------------------------------------------------------------- fixed-width decimals

  function Ten(k: nat): nat { if k == 0 then 1 else 10 * Ten(k - 1) }

  function Pad(k: nat, n: nat): (s: string)
    ensures |s| == k
  {
    if k == 0 then "" else Pad(k - 1, n / 10) + [Digit(n % 10)]
  }

  lemma {:induction false} PadOrder(k: nat, m: nat, n: nat)
    requires m < Ten(k) && n < Ten(k)
    ensures LexLe(Pad(k, m), Pad(k, n)) <==> m <= n
    ensures Pad(k, m) == Pad(k, n) <==> m == n
  {
    if k > 0 {
      PadOrder(k - 1, m / 10, n / 10);
      var a, b := Pad(k - 1, m / 10), Pad(k - 1, n / 10);
      LexConcat(a, b, [Digit(m % 10)], [Digit(n % 10)]);
      assert Pad(k, m)[..k - 1] == a && Pad(k, n)[..k - 1] == b;
      assert Pad(k, m)[k - 1] == Digit(m % 10) && Pad(k, n)[k - 1] == Digit(n % 10);
      DigitOrder(m % 10, n % 10);
    }
  }

  lemma DigitOrder(c: nat, d: nat)
    requires c < 10 && d < 10
    ensures LexLe([Digit(c)], [Digit(d)]) <==> c <= d
    ensures Digit(c) == Digit(d) <==> c == d
  {
  }

  // ---------------------------------------------------------------- the timestamp

  const DAY: nat := 86400

  // Seconds after the epoch that `datetime` can represent.
  predicate InRange(t: nat) { DateOf(t / DAY).year <= 9999 }

  function Fields(t: nat): (fs: seq<(nat, nat)>)
    requires InRange(t)
    ensures |fs| == 6 && forall i :: 0 <= i < 6 ==> fs[i].1 < Ten(fs[i].0)
  {
    var d := DateOf(t / DAY);
    assert Ten(4) == 10000 && Ten(2) == 100;
    [(4, d.year), (2, d.month), (2, d.day), (2, t % DAY / 3600), (2, t / 60 % 60), (2, t % 60)]
  }

  const SEPARATORS := ["-", "-", "T", ":", ":", "+00:00"]

  function Render(fs: seq<(nat, nat)>, seps: seq<string>): string
    requires |fs| == |seps|
  {
    if fs == [] then "" else Pad(fs[0].0, fs[0].1) + (seps[0] + Render(fs[1..], seps[1..]))
  }

  function Iso(t: nat): string
    requires InRange(t)
  {
    Render(Fields(t), SEPARATORS)
  }

  // Field-wise order of two field lists.
  predicate FieldsLe(f: seq<(nat, nat)>, g: seq<(nat, nat)>)
    requires |f| == |g|
  {
    f == [] || f[0].1 < g[0].1 || (f[0].1 == g[0].1 && FieldsLe(f[1..], g[1..]))
  }

  lemma {:induction false} RenderOrder(f: seq<(nat, nat)>, g: seq<(nat, nat)>, seps: seq<string>)
    requires |f| == |g| == |seps|
    requires forall i :: 0 <= i < |f| ==> f[i].0 == g[i].0 && f[i].1 < Ten(f[i].0) && g[i].1 < Ten(f[i].0)
    ensures LexLe(Render(f, seps), Render(g, seps)) <==> FieldsLe(f, g)
  {
    if f != [] {
      PadOrder(f[0].0, f[0].1, g[0].1);
      var x, y := Render(f[1..], seps[1..]), Render(g[1..], seps[1..]);
      LexConcat(Pad(f[0].0, f[0].1), Pad(g[0].0, g[0].1), seps[0] + x, seps[0] + y);
      LexConcat(seps[0], seps[0], x, y);
      RenderOrder(f[1..], g[1..], seps[1..]);
    }
  }

  lemma ClockOrder(t: nat, u: nat)
    requires t / DAY == u / DAY
    ensures t <= u <==>
              (t % DAY / 3600 < u % DAY / 3600
               || (t % DAY / 3600 == u % DAY / 3600
                   && (t / 60 % 60 < u / 60 % 60 || (t / 60 % 60 == u / 60 % 60 && t % 60 <= u % 60))))
  {
    Clock(t);
    Clock(u);
  }

  lemma Clock(t: nat)
    ensures t == t / DAY * DAY + t % DAY / 3600 * 3600 + t / 60 % 60 * 60 + t % 60
  {
    assert t / 60 == t / 3600 * 60 + t / 60 % 60;
    assert t % DAY / 3600 == t / 3600 - t / DAY * 24;
  }

  lemma FieldsOrder(t: nat, u: nat)
    requires InRange(t) && InRange(u)
    ensures FieldsLe(Fields(t), Fields(u)) <==> t <= u
  {
    var f, g := Fields(t), Fields(u);
    if t / DAY < u / DAY {
      LaterDaysHaveLaterDates(t / DAY, u / DAY);
    } else if u / DAY < t / DAY {
      LaterDaysHaveLaterDates(u / DAY, t / DAY);
    } else {
      ClockOrder(t, u);
    }
    assert FieldsLe(f, g) <==> SixLe(f, g) by { SixFields(f, g); }
  }

  // Six fields compared from the left.
  predicate SixLe(f: seq<(nat, nat)>, g: seq<(nat, nat)>)
    requires |f| == |g| == 6
  {
    f[0].1 < g[0].1 || (f[0].1 == g[0].1 &&
    (f[1].1 < g[1].1 || (f[1].1 == g[1].1 &&
    (f[2].1 < g[2].1 || (f[2].1 == g[2].1 &&
    (f[3].1 < g[3].1 || (f[3].1 == g[3].1 &&
    (f[4].1 < g[4].1 || (f[4].1 == g[4].1 && f[5].1 <= g[5].1)))))))))
  }

  lemma SixFields(f: seq<(nat, nat)>, g: seq<(nat, nat)>)
    requires |f| == |g| == 6
    ensures FieldsLe(f, g) <==> SixLe(f, g)
  {
    assert f[5..][1..] == [] && g[5..][1..] == [];
    FieldsUnfold(f, g, 4);
    FieldsUnfold(f, g, 3);
    FieldsUnfold(f, g, 2);
    FieldsUnfold(f, g, 1);
    FieldsUnfold(f, g, 0);
    assert f[0..] == f && g[0..] == g;
  }

  lemma FieldsUnfold(f: seq<(nat, nat)>, g: seq<(nat, nat)>, i: nat)
    requires |f| == |g| && i < |f|
    ensures FieldsLe(f[i..], g[i..]) <==> f[i].1 < g[i].1 || (f[i].1 == g[i].1 && FieldsLe(f[i + 1..], g[i + 1..]))
  {
    assert f[i..][1..] == f[i + 1..] && g[i..][1..] == g[i + 1..];
  }

  // The order of the texts is the order of the times.
  lemma IsoOrder(t: nat, u: nat)
    requires InRange(t) && InRange(u)
    ensures LexLe(Iso(t), Iso(u)) <==> t <= u
  {
    RenderOrder(Fields(t), Fields(u), SEPARATORS);
    FieldsOrder(t, u);
  }
}
