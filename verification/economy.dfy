/** The meta-game of src/main.js kept in `localStorage`: credits, the daily streak bonus,
    unlocking characters, the start-of-run shop and what the end of a run writes back.
    Dates are day numbers (days since an epoch, UTC) and week keys are opaque strings,
    because `todayISO` and `weekKeyUTC` read the clock. */
module Economy {
  import opened Wrappers
  import opened Text
  import opened Runner

  /** The save record (`DEFAULT_SAVE` and its updates); `unlocked` is the set of ids whose
      flag is true. */
  datatype Save = Save(
    credits: int, lastPlayedDay: Option<int>, streak: int,
    unlocked: set<CharId>, selected: CharId,
    bestAllTime: int, bestWeek: int, weekKey: Option<String>)

  function DefaultSave(): (s: Save)
    ensures SaveInv(s) && s.credits == 0 && s.unlocked == {Bull} && s.selected == Bull
  {
    Save(0, None, 0, {Bull}, Bull, 0, 0, None)
  }

  /** What every operation on the save keeps: no debt, the default character always
      owned, the selected one owned, non-negative bests with the weekly best no higher
      than the all-time best. */
  predicate SaveInv(s: Save) {
    s.credits >= 0 && Bull in s.unlocked && s.selected in s.unlocked
    && 0 <= s.bestWeek <= s.bestAllTime && s.streak >= 0
  }

  const FirstDayBonus: int := 150
  const DailyBase: int := 100
  const StreakStep: int := 30
  const StreakCap: int := 900

  function MinI(a: int, b: int): int { if a <= b then a else b }
  function MaxI(a: int, b: int): int { if a >= b then a else b }

  /** The bonus for a day on which the streak reached `streak`. */
  function StreakBonus(streak: int): int {
    DailyBase + MinI(StreakCap, streak * StreakStep)
  }

  /** `handleDaily` on day `today`: the new save and the bonus it returns. The first visit
      ever earns 150; a later first visit of a day earns 100 plus 30 per day of streak, at
      most 1000, the streak growing on consecutive days and restarting at 1 otherwise. */
  function HandleDaily(s: Save, today: int): (r: (Save, int))
    ensures r.1 == 0 <==> s.lastPlayedDay == Some(today)
    ensures r.1 == 0 ==> r.0 == s
    ensures r.1 != 0 ==> r.0 == s.(lastPlayedDay := Some(today), credits := s.credits + r.1, streak := r.0.streak)
    ensures s.lastPlayedDay.None? ==> r.0.streak == 1 && r.1 == FirstDayBonus
    ensures s.lastPlayedDay.Some? && s.lastPlayedDay != Some(today)
            ==> r.0.streak == (if today - s.lastPlayedDay.value == 1 then s.streak + 1 else 1)
                && r.1 == StreakBonus(r.0.streak)
  {
    match s.lastPlayedDay
    case None => (s.(lastPlayedDay := Some(today), streak := 1, credits := s.credits + FirstDayBonus), FirstDayBonus)
    case Some(prev) =>
      if prev == today then (s, 0)
      else
        var streak := if today - prev == 1 then s.streak + 1 else 1;
        var bonus := StreakBonus(streak);
        (s.(lastPlayedDay := Some(today), streak := streak, credits := s.credits + bonus), bonus)
  }

  /** The bonus is paid once a day: a second call the same day pays nothing. Each payment
      lies between 130 and 1000, and the save's invariant is kept. */
  lemma DailyOncePerDay(s: Save, today: int)
    requires SaveInv(s)
    ensures HandleDaily(HandleDaily(s, today).0, today) == (HandleDaily(s, today).0, 0)
    ensures var b := HandleDaily(s, today).1; b == 0 || 130 <= b <= 1000
    ensures SaveInv(HandleDaily(s, today).0)
  {
  }

  /** Playing on `n` consecutive days after a first visit builds a streak of `n + 1`. */
  function PlayDays(s: Save, first: int, n: nat): Save
    decreases n
  {
    if n == 0 then s else HandleDaily(PlayDays(s, first, n - 1), first + n).0
  }

  lemma {:induction false} StreakOfConsecutiveDays(s: Save, first: int, n: nat)
    requires s.lastPlayedDay == Some(first) && s.streak == 1
    ensures PlayDays(s, first, n).streak == n + 1
    ensures PlayDays(s, first, n).lastPlayedDay == Some(first + n)
    decreases n
  {
    if n > 0 {
      StreakOfConsecutiveDays(s, first, n - 1);
    }
  }

  /** The daily bonus grows with the streak until the 30th day and stays at 1000 after. */
  lemma StreakBonusCap(k: int)
    requires k >= 1
    ensures 130 <= StreakBonus(k) <= 1000
    ensures StreakBonus(k) == 1000 <==> k >= 30
    ensures StreakBonus(k) <= StreakBonus(k + 1)
  {
  }

  /** A click on a character card: select it when owned, buy and select it when
      affordable, and otherwise change nothing. */
  function ChooseCharacter(s: Save, c: CharId): (t: Save)
    ensures c in s.unlocked ==> t == s.(selected := c)
    ensures c !in s.unlocked && s.credits < CharCost(c) ==> t == s
    ensures c !in s.unlocked && s.credits >= CharCost(c)
            ==> t == s.(credits := s.credits - CharCost(c), unlocked := s.unlocked + {c}, selected := c)
  {
    if c in s.unlocked then s.(selected := c)
    else if s.credits < CharCost(c) then s
    else s.(credits := s.credits - CharCost(c), unlocked := s.unlocked + {c}, selected := c)
  }

  /** Choosing keeps the invariant; a character is paid for at most once, since owned ones
      are selected for free. */
  lemma ChooseKeeps(s: Save, c: CharId)
    requires SaveInv(s)
    ensures SaveInv(ChooseCharacter(s, c))
    ensures ChooseCharacter(ChooseCharacter(s, c), c) == ChooseCharacter(s, c)
    ensures ChooseCharacter(s, c).selected == c <==> c in ChooseCharacter(s, c).unlocked
  {
  }

  /** The ids of `SHOP_ITEMS`. */
  datatype ShopItem = ExtraLife | StartShield | StartMult

  function ItemCost(i: ShopItem): nat {
    match i
    case ExtraLife => 300
    case StartShield => 450
    case StartMult => 700
  }

  /** The `temp` record `startRun` builds. */
  datatype Loadout = Loadout(startLives: int, startShield: bool, startMultiplier: real)

  const DefaultLoadout: Loadout := Loadout(3, false, 1.0)

  /** `item.apply(temp)`. */
  function ApplyItem(l: Loadout, i: ShopItem): Loadout {
    match i
    case ExtraLife => l.(startLives := l.startLives + 1)
    case StartShield => l.(startShield := true)
    case StartMult => l.(startMultiplier := 1.5)
  }

  /** The loadout after applying `items` in order. */
  function ApplyAll(l: Loadout, items: seq<ShopItem>): Loadout
    decreases |items|
  {
    if |items| == 0 then l else ApplyAll(ApplyItem(l, items[0]), items[1..])
  }

  /** `s` is `t` with some elements left out, the rest in their order. */
  predicate IsSubsequence(s: seq<ShopItem>, t: seq<ShopItem>)
    decreases |t|
  {
    if |s| == 0 then true
    else if |t| == 0 then false
    else (s[0] == t[0] && IsSubsequence(s[1..], t[1..])) || IsSubsequence(s, t[1..])
  }

  function TotalCost(items: seq<ShopItem>): int
    decreases |items|
  {
    if |items| == 0 then 0 else ItemCost(items[0]) + TotalCost(items[1..])
  }

  /** `selectedShop` after a checkbox changes: a `Set` in insertion order. */
  function ToggleItem(selected: seq<ShopItem>, i: ShopItem, checked: bool): (r: seq<ShopItem>)
    ensures checked ==> i in r
    ensures !checked ==> i !in r
    ensures forall j :: j != i ==> (j in r <==> j in selected)
    decreases |selected|
  {
    if checked then (if i in selected then selected else selected + [i])
    else if |selected| == 0 then []
    else if selected[0] == i then ToggleItem(selected[1..], i, false)
    else [selected[0]] + ToggleItem(selected[1..], i, false)
  }

  predicate Distinct(items: seq<ShopItem>) {
    forall a, b :: 0 <= a < b < |items| ==> items[a] != items[b]
  }

  /** Like the `Set` it models, the selection never holds an item twice. */
  lemma {:induction false} ToggleKeepsDistinct(selected: seq<ShopItem>, i: ShopItem, checked: bool)
    requires Distinct(selected)
    ensures Distinct(ToggleItem(selected, i, checked))
    decreases |selected|
  {
    if !checked && |selected| > 0 {
      var t := selected[1..];
      assert Distinct(t) by {
        forall a, b | 0 <= a < b < |t| ensures t[a] != t[b] {
          assert t[a] == selected[a + 1] && t[b] == selected[b + 1];
        }
      }
      ToggleKeepsDistinct(t, i, false);
      if selected[0] != i {
        var rest := ToggleItem(t, i, false);
        assert selected[0] !in t by {
          forall k | 0 <= k < |t| ensures t[k] != selected[0] {
            assert t[k] == selected[k + 1];
          }
        }
        assert selected[0] !in rest;
        var r := [selected[0]] + rest;
        forall a, b | 0 <= a < b < |r| ensures r[a] != r[b] {
          if a == 0 {
            assert r[b] == rest[b - 1];
          } else {
            assert r[a] == rest[a - 1] && r[b] == rest[b - 1];
          }
        }
      }
    } else if checked && i !in selected {
      var r := selected + [i];
      forall a, b | 0 <= a < b < |r| ensures r[a] != r[b] {
        if b == |selected| {
          assert r[a] == selected[a];
        }
      }
    }
  }

  /** The shop loop of `startRun`: in order, each chosen item is bought and applied when
      the credits cover it and skipped otherwise. Returns the credits left, the loadout
      and the items bought. */
  function BuyLoadout(credits: int, items: seq<ShopItem>, l: Loadout): (r: (int, Loadout, seq<ShopItem>))
    ensures r.0 == credits - TotalCost(r.2)
    ensures credits >= 0 ==> r.0 >= 0
    ensures |r.2| <= |items| && forall i :: i in r.2 ==> i in items
    ensures IsSubsequence(r.2, items)
    ensures r.1 == ApplyAll(l, r.2)
    decreases |items|
  {
    if |items| == 0 then (credits, l, [])
    else if credits < ItemCost(items[0]) then BuyLoadout(credits, items[1..], l)
    else
      var r := BuyLoadout(credits - ItemCost(items[0]), items[1..], ApplyItem(l, items[0]));
      assert ([items[0]] + r.2)[1..] == r.2;
      (r.0, r.1, [items[0]] + r.2)
  }

  /** The loop seen one item at a time, in its own order: the next item is bought, and
      applied to the loadout, exactly when the credits left after the earlier items
      cover its cost; otherwise it is skipped and nothing changes. */
  lemma {:induction false} BuyLoadoutStep(credits: int, items: seq<ShopItem>, x: ShopItem, l: Loadout)
    ensures var p := BuyLoadout(credits, items, l);
            BuyLoadout(credits, items + [x], l)
              == if p.0 < ItemCost(x) then p else (p.0 - ItemCost(x), ApplyItem(p.1, x), p.2 + [x])
    decreases |items|
  {
    if |items| == 0 {
      assert items + [x] == [x] && [x][1..] == [] && [x] + [] == items + [x];
    } else {
      var ix := items + [x];
      assert ix[0] == items[0] && ix[1..] == items[1..] + [x];
      if credits < ItemCost(items[0]) {
        BuyLoadoutStep(credits, items[1..], x, l);
      } else {
        var c, l1 := credits - ItemCost(items[0]), ApplyItem(l, items[0]);
        BuyLoadoutStep(c, items[1..], x, l1);
        var q := BuyLoadout(c, items[1..], l1);
        assert BuyLoadout(credits, items, l) == (q.0, q.1, [items[0]] + q.2);
        assert ([items[0]] + q.2) + [x] == [items[0]] + (q.2 + [x]);
      }
    }
  }

  /** With enough credits for everything, everything chosen is bought. */
  lemma {:induction false} BuyAllAffordable(credits: int, items: seq<ShopItem>, l: Loadout)
    requires credits >= TotalCost(items)
    ensures BuyLoadout(credits, items, l).2 == items
    decreases |items|
  {
    if |items| > 0 {
      TotalCostNonneg(items[1..]);
      BuyAllAffordable(credits - ItemCost(items[0]), items[1..], ApplyItem(l, items[0]));
    }
  }

  lemma {:induction false} TotalCostNonneg(items: seq<ShopItem>)
    ensures TotalCost(items) >= 0
    decreases |items|
  {
    if |items| > 0 {
      TotalCostNonneg(items[1..]);
    }
  }

  /** From the default loadout and a set of distinct items, a run starts with 3 or 4
      lives, and a multiplier of 1.0 or 1.5. */
  lemma {:induction false} LoadoutBounds(credits: int, items: seq<ShopItem>, l: Loadout)
    requires Distinct(items)
    requires 3 <= l.startLives <= 4 && (l.startLives == 4 ==> ExtraLife !in items)
    requires l.startMultiplier == 1.0 || l.startMultiplier == 1.5
    ensures var lo := BuyLoadout(credits, items, l).1;
            3 <= lo.startLives <= 4 && (lo.startMultiplier == 1.0 || lo.startMultiplier == 1.5)
    decreases |items|
  {
    if |items| > 0 {
      assert Distinct(items[1..]) by {
        forall a, b | 0 <= a < b < |items[1..]| ensures items[1..][a] != items[1..][b] {
          assert items[1..][a] == items[a + 1] && items[1..][b] == items[b + 1];
        }
      }
      if credits < ItemCost(items[0]) {
        LoadoutBounds(credits, items[1..], l);
      } else {
        var l' := ApplyItem(l, items[0]);
        assert items[0] == ExtraLife ==> ExtraLife !in items[1..];
        LoadoutBounds(credits - ItemCost(items[0]), items[1..], l');
      }
    }
  }

  const CreditsPerScore: real := 120.0

  /** `endRun`'s update of the save for a run that scored `score`, in week `week`: one
      credit per 120 points, and the all-time and weekly bests, the weekly one restarting
      in a new week. */
  function EndRunSave(s: Save, score: real, week: String): (t: Save)
    ensures t.credits == s.credits + MaxI(0, (score / CreditsPerScore).Floor)
    ensures t.weekKey == Some(week)
    ensures t.bestAllTime == MaxI(s.bestAllTime, score.Floor)
    ensures s.weekKey == Some(week) ==> t.bestWeek == MaxI(s.bestWeek, score.Floor)
    ensures s.weekKey != Some(week) ==> t.bestWeek == MaxI(0, score.Floor)
    ensures t.(credits := s.credits, weekKey := s.weekKey, bestAllTime := s.bestAllTime, bestWeek := s.bestWeek) == s
  {
    var earned := MaxI(0, (score / CreditsPerScore).Floor);
    var s1 := s.(credits := s.credits + earned);
    var s2 := if s1.weekKey != Some(week) then s1.(weekKey := Some(week), bestWeek := 0) else s1;
    s2.(bestAllTime := MaxI(s2.bestAllTime, score.Floor), bestWeek := MaxI(s2.bestWeek, score.Floor))
  }

  /** The end of a run keeps the save's invariant and never takes credits or lowers the
      all-time best. */
  lemma EndRunKeeps(s: Save, score: real, week: String)
    requires SaveInv(s)
    ensures SaveInv(EndRunSave(s, score, week))
    ensures EndRunSave(s, score, week).credits >= s.credits
    ensures EndRunSave(s, score, week).bestAllTime >= s.bestAllTime
  {
  }
}
