/** One polling cycle of `PollingService`: every active user against every
    recent listing, sequentially, with the `sent_alerts` table as the dedup
    store. The database, the formatter and Telegram are oracles. */
module Poller {
  import opened Scoring

  /** An active user (already filtered on active, not paused, onboarded). */
  datatype User = User(telegramId: int)

  /** A row of `sent_alerts`. */
  datatype SentAlert = SentAlert(
    userId: int,
    annonceId: int,
    scoreTotal: int,
    scoreCriteresStricts: int,
    scoreCriteresConfort: int,
    criteresStrictsMatches: seq<string>,
    criteresConfortMatches: seq<string>,
    badges: seq<string>,
    userAction: string)

  /** What one `sendAlert` call achieved: the message could not be formatted
      or sent (the exception is caught), or it was sent and `saveAlert`
      succeeded or reported an error. */
  datatype Delivery = SendFailed | Delivered(saved: bool)

  /** One `sendAlert` call, with the positions of its user and listing in the
      fetched lists. */
  datatype Attempt = Attempt(userIndex: nat, adIndex: nat, userId: int, adId: int, score: ScoreResult, delivery: Delivery)

  /** The two fetches at the start of a cycle. The repositories turn database
      errors into empty lists; an exception escaping them aborts the cycle. */
  datatype Fetch = Fetched(ads: seq<Ad>, users: seq<User>) | FetchThrew

  /** The table holds a row for the pair. */
  predicate Recorded(table: seq<SentAlert>, userId: int, adId: int) {
    exists k :: 0 <= k < |table| && table[k].userId == userId && table[k].annonceId == adId
  }

  /** The table holds exactly one row for the pair. */
  predicate RecordedOnce(table: seq<SentAlert>, userId: int, adId: int) {
    exists k :: 0 <= k < |table| && table[k].userId == userId && table[k].annonceId == adId
                && forall k' :: 0 <= k' < |table| && k' != k ==> !(table[k'].userId == userId && table[k'].annonceId == adId)
  }

  /** `hasAlertBeenSent`: a single-row lookup. It answers "sent" only when
      exactly one row matches; no row, two or more rows (the lookup then
      returns no data) and a lookup that errors all read as "not sent". */
  predicate HasAlertBeenSent(table: seq<SentAlert>, userId: int, adId: int, lookupErrors: set<(int, int)>) {
    (userId, adId) !in lookupErrors && RecordedOnce(table, userId, adId)
  }

  /** The row `sendAlert` saves: the score copied field by field, marked SENT. */
  function RecordOf(a: Attempt): SentAlert {
    SentAlert(a.userId, a.adId, a.score.scoreTotal, a.score.scoreCriteresStricts, a.score.scoreCriteresConfort,
              a.score.criteresStrictsMatches, a.score.criteresConfortMatches, a.score.badges, "SENT")
  }

  /** The rows written by a sequence of attempts: one per attempt whose
      message went out and whose row was saved, in attempt order. */
  function SavedRecords(attempts: seq<Attempt>): seq<SentAlert> {
    if |attempts| == 0 then []
    else
      var last := attempts[|attempts| - 1];
      SavedRecords(attempts[..|attempts| - 1]) + (if last.delivery == Delivered(true) then [RecordOf(last)] else [])
  }

  /** An attempt for `user` on the listing at `a.adIndex` is one `sendAlert`
      call the source makes: the user has criteria, the score was computed
      with them and is positive, and the delivery is what the channel gave. */
  ghost predicate Justified(a: Attempt, user: User, ads: seq<Ad>, criteriaOf: map<int, Criteria>,
                            deliver: (int, int) -> Delivery)
  {
    && a.adIndex < |ads|
    && a.userId == user.telegramId
    && a.adId == ads[a.adIndex].id
    && user.telegramId in criteriaOf
    && a.score == CalculateScore(ads[a.adIndex], criteriaOf[user.telegramId])
    && a.score.scoreTotal > 0
    && a.delivery == deliver(a.userId, a.adId)
  }

  /** `a` is justified for the user at its position in `users`. */
  ghost predicate JustifiedIn(a: Attempt, users: seq<User>, ads: seq<Ad>, criteriaOf: map<int, Criteria>,
                              deliver: (int, int) -> Delivery)
  {
    a.userIndex < |users| && Justified(a, users[a.userIndex], ads, criteriaOf, deliver)
  }

  ghost predicate AllJustified(attempts: seq<Attempt>, users: seq<User>, ads: seq<Ad>, criteriaOf: map<int, Criteria>,
                               deliver: (int, int) -> Delivery)
  {
    forall i :: 0 <= i < |attempts| ==>
      JustifiedIn(attempts[i], users, ads, criteriaOf, deliver)
  }

  /** Users in list order, and listings in list order within a user. */
  ghost predicate Ordered(attempts: seq<Attempt>) {
    forall i, j :: 0 <= i < j < |attempts| ==>
      || attempts[i].userIndex < attempts[j].userIndex
      || (attempts[i].userIndex == attempts[j].userIndex && attempts[i].adIndex < attempts[j].adIndex)
  }

  /** The check made for one attempt, against the table as it stood then. */
  ghost predicate CheckedAt(table: seq<SentAlert>, attempts: seq<Attempt>, lookupErrors: set<(int, int)>, i: int)
    requires 0 <= i < |attempts|
  {
    !HasAlertBeenSent(table + SavedRecords(attempts[..i]), attempts[i].userId, attempts[i].adId, lookupErrors)
  }

  /** Each attempt's pair was looked up, against the table as it stood at
      that moment, and not found (or the lookup failed). */
  ghost predicate CheckedBeforeSending(table: seq<SentAlert>, attempts: seq<Attempt>, lookupErrors: set<(int, int)>) {
    forall i :: 0 <= i < |attempts| ==> CheckedAt(table, attempts, lookupErrors, i)
  }

  /** No pair of the first `n` users is forgotten: every (user with criteria,
      listing with positive score) pair was attempted, or the lookup found
      its single row. A pair whose lookup fails, or that the table holds
      twice, is attempted. */
  ghost predicate CompleteUpTo(users: seq<User>, ads: seq<Ad>, criteriaOf: map<int, Criteria>,
                               lookupErrors: set<(int, int)>, attempts: seq<Attempt>, table: seq<SentAlert>, n: int)
  {
    forall u, j :: 0 <= u < n && u < |users| && 0 <= j < |ads| && users[u].telegramId in criteriaOf
                   && CalculateScore(ads[j], criteriaOf[users[u].telegramId]).scoreTotal > 0 ==>
      || (exists i :: 0 <= i < |attempts| && attempts[i].userIndex == u && attempts[i].adIndex == j)
      || HasAlertBeenSent(table, users[u].telegramId, ads[j].id, lookupErrors)
  }

  lemma SavedRecordsAppend(a: seq<Attempt>, b: seq<Attempt>)
    ensures SavedRecords(a + b) == SavedRecords(a) + SavedRecords(b)
    decreases |b|
  {
    if |b| > 0 {
      assert (a + b)[..|a + b| - 1] == a + b[..|b| - 1];
      SavedRecordsAppend(a, b[..|b| - 1]);
    } else {
      assert a + b == a;
    }
  }

  /** One more attempt adds at most its own row. */
  lemma SavedRecordsSnoc(before: seq<Attempt>, a: Attempt)
    ensures SavedRecords(before + [a])
            == SavedRecords(before) + (if a.delivery == Delivered(true) then [RecordOf(a)] else [])
  {
    assert (before + [a])[..|before|] == before;
  }

  lemma NotRecordedShrinks(table: seq<SentAlert>, table': seq<SentAlert>, userId: int, adId: int)
    requires table <= table' && !Recorded(table', userId, adId)
    ensures !Recorded(table, userId, adId)
  {
    forall k | 0 <= k < |table|
      ensures !(table[k].userId == userId && table[k].annonceId == adId)
    {
      assert table'[k] == table[k];
    }
  }

  /** The listing at `k` has been dealt with for this user: it was attempted,
      or the lookup found the pair's single row, or its score is zero. */
  ghost predicate Handled(ads: seq<Ad>, criteria: Criteria, userId: int, lookupErrors: set<(int, int)>,
                          attempts: seq<Attempt>, table: seq<SentAlert>, k: int)
    requires 0 <= k < |ads|
  {
    CalculateScore(ads[k], criteria).scoreTotal > 0 ==>
      || (exists i :: 0 <= i < |attempts| && attempts[i].adIndex == k)
      || HasAlertBeenSent(table, userId, ads[k].id, lookupErrors)
  }

  /** The listings before position `j` have all been dealt with. */
  ghost predicate HandledUpTo(ads: seq<Ad>, criteria: Criteria, userId: int, lookupErrors: set<(int, int)>,
                              attempts: seq<Attempt>, table: seq<SentAlert>, j: int)
    requires 0 <= j <= |ads|
  {
    forall k :: 0 <= k < j ==> Handled(ads, criteria, userId, lookupErrors, attempts, table, k)
  }

  lemma HandledExtend(ads: seq<Ad>, criteria: Criteria, userId: int, lookupErrors: set<(int, int)>,
                      attempts: seq<Attempt>, table: seq<SentAlert>, j: int)
    requires 0 <= j < |ads|
    requires HandledUpTo(ads, criteria, userId, lookupErrors, attempts, table, j)
    requires Handled(ads, criteria, userId, lookupErrors, attempts, table, j)
    ensures HandledUpTo(ads, criteria, userId, lookupErrors, attempts, table, j + 1)
  {
  }

  lemma HandledGrows(ads: seq<Ad>, criteria: Criteria, userId: int, lookupErrors: set<(int, int)>,
                     attempts: seq<Attempt>, table: seq<SentAlert>, more: seq<Attempt>, j: int)
    requires 0 <= j <= |ads|
    requires HandledUpTo(ads, criteria, userId, lookupErrors, attempts, table, j)
    requires CheckedBeforeSending(table, more, lookupErrors)
    ensures HandledUpTo(ads, criteria, userId, lookupErrors, attempts + more, table + SavedRecords(more), j)
  {
    forall k | 0 <= k < j
      ensures Handled(ads, criteria, userId, lookupErrors, attempts + more, table + SavedRecords(more), k)
    {
      assert Handled(ads, criteria, userId, lookupErrors, attempts, table, k);
      if i :| 0 <= i < |attempts| && attempts[i].adIndex == k {
        assert (attempts + more)[i] == attempts[i];
      } else if HasAlertBeenSent(table, userId, ads[k].id, lookupErrors) {
        OnceStaysOnceAll(table, more, lookupErrors, userId, ads[k].id);
      }
    }
  }

  /** A pair whose single row a working lookup sees is never attempted
      again, so one more checked attempt leaves it with its single row. */
  lemma OnceStaysOnce(table: seq<SentAlert>, a: Attempt, lookupErrors: set<(int, int)>, userId: int, adId: int)
    requires (userId, adId) !in lookupErrors && RecordedOnce(table, userId, adId)
    requires !HasAlertBeenSent(table, a.userId, a.adId, lookupErrors)
    ensures RecordedOnce(table + (if a.delivery == Delivered(true) then [RecordOf(a)] else []), userId, adId)
  {
    var t := table + (if a.delivery == Delivered(true) then [RecordOf(a)] else []);
    assert (a.userId, a.adId) != (userId, adId);
    var k :| 0 <= k < |table| && table[k].userId == userId && table[k].annonceId == adId
             && forall k' :: 0 <= k' < |table| && k' != k ==> !(table[k'].userId == userId && table[k'].annonceId == adId);
    assert t[k] == table[k];
    forall k' | 0 <= k' < |t| && k' != k
      ensures !(t[k'].userId == userId && t[k'].annonceId == adId)
    {
      if k' < |table| {
        assert t[k'] == table[k'];
      }
    }
  }

  lemma {:induction false} CheckedPrefix(table: seq<SentAlert>, attempts: seq<Attempt>, lookupErrors: set<(int, int)>, n: int)
    requires CheckedBeforeSending(table, attempts, lookupErrors) && 0 <= n <= |attempts|
    ensures CheckedBeforeSending(table, attempts[..n], lookupErrors)
  {
    forall i | 0 <= i < n
      ensures CheckedAt(table, attempts[..n], lookupErrors, i)
    {
      assert CheckedAt(table, attempts, lookupErrors, i);
      assert attempts[..n][..i] == attempts[..i] && attempts[..n][i] == attempts[i];
    }
  }

  /** Checked attempts leave every pair that a working lookup sees once
      with its single row. */
  lemma {:induction false} OnceStaysOnceAll(table: seq<SentAlert>, more: seq<Attempt>, lookupErrors: set<(int, int)>,
                                            userId: int, adId: int)
    requires CheckedBeforeSending(table, more, lookupErrors)
    requires (userId, adId) !in lookupErrors && RecordedOnce(table, userId, adId)
    ensures RecordedOnce(table + SavedRecords(more), userId, adId)
    decreases |more|
  {
    if |more| == 0 {
      assert table + SavedRecords(more) == table;
    } else {
      var n := |more| - 1;
      var init, last := more[..n], more[n];
      CheckedPrefix(table, more, lookupErrors, n);
      OnceStaysOnceAll(table, init, lookupErrors, userId, adId);
      assert CheckedAt(table, more, lookupErrors, n);
      OnceStaysOnce(table + SavedRecords(init), last, lookupErrors, userId, adId);
      var extra := if last.delivery == Delivered(true) then [RecordOf(last)] else [];
      assert SavedRecords(more) == SavedRecords(init) + extra;
      assert (table + SavedRecords(init)) + extra == table + (SavedRecords(init) + extra);
    }
  }

  /** In a table with one row per pair, a recorded pair is recorded once. */
  lemma UniqueRecordedOnce(table: seq<SentAlert>, userId: int, adId: int)
    requires UniquePairs(table)
    ensures Recorded(table, userId, adId) <==> RecordedOnce(table, userId, adId)
  {
    if Recorded(table, userId, adId) {
      var k :| 0 <= k < |table| && table[k].userId == userId && table[k].annonceId == adId;
      forall k' | 0 <= k' < |table| && k' != k
        ensures !(table[k'].userId == userId && table[k'].annonceId == adId)
      {
        if k' < k {
          assert !(table[k'].userId == table[k].userId && table[k'].annonceId == table[k].annonceId);
        } else {
          assert !(table[k].userId == table[k'].userId && table[k].annonceId == table[k'].annonceId);
        }
      }
    }
  }

  /** A pair held at two positions is not held once. */
  lemma TwiceNotOnce(table: seq<SentAlert>, userId: int, adId: int, k1: int, k2: int)
    requires 0 <= k1 < k2 < |table|
    requires table[k1].userId == userId && table[k1].annonceId == adId
    requires table[k2].userId == userId && table[k2].annonceId == adId
    ensures !RecordedOnce(table, userId, adId)
  {
    forall k | 0 <= k < |table| && table[k].userId == userId && table[k].annonceId == adId
      ensures exists k' :: 0 <= k' < |table| && k' != k && table[k'].userId == userId && table[k'].annonceId == adId
    {
      if k == k1 {
        assert k2 != k;
      } else {
        assert k1 != k;
      }
    }
  }

  lemma CheckedGrows(table: seq<SentAlert>, before: seq<Attempt>, a: Attempt, lookupErrors: set<(int, int)>)
    requires CheckedBeforeSending(table, before, lookupErrors)
    requires !HasAlertBeenSent(table + SavedRecords(before), a.userId, a.adId, lookupErrors)
    ensures CheckedBeforeSending(table, before + [a], lookupErrors)
  {
    var after := before + [a];
    forall i | 0 <= i < |after|
      ensures CheckedAt(table, after, lookupErrors, i)
    {
      if i < |before| {
        assert CheckedAt(table, before, lookupErrors, i);
        assert after[..i] == before[..i] && after[i] == before[i];
      } else {
        assert after[..i] == before && after[i] == a;
      }
    }
  }

  /** Appending the attempt for listing `j` keeps the attempts of one user
      justified and in listing order. */
  lemma AppendAttempt(userIndex: nat, user: User, ads: seq<Ad>, criteriaOf: map<int, Criteria>,
                      deliver: (int, int) -> Delivery, before: seq<Attempt>, a: Attempt, j: int)
    requires forall i :: 0 <= i < |before| ==>
               && before[i].userIndex == userIndex && before[i].adIndex < j
               && Justified(before[i], user, ads, criteriaOf, deliver)
    requires Ordered(before)
    requires a.userIndex == userIndex && a.adIndex == j && Justified(a, user, ads, criteriaOf, deliver)
    ensures forall i :: 0 <= i < |before + [a]| ==>
              && (before + [a])[i].userIndex == userIndex && (before + [a])[i].adIndex < j + 1
              && Justified((before + [a])[i], user, ads, criteriaOf, deliver)
    ensures Ordered(before + [a])
  {
    var after := before + [a];
    forall i | 0 <= i < |after|
      ensures after[i] == if i < |before| then before[i] else a
    {
    }
  }

  /** `processUser`: skip a user without criteria; otherwise, for each listing
      in order, skip the pair if already sent, score it, and call
      `sendAlert` when the total is positive. */
  method ProcessUser(userIndex: nat, user: User, ads: seq<Ad>, criteriaOf: map<int, Criteria>,
                     lookupErrors: set<(int, int)>, deliver: (int, int) -> Delivery, table: seq<SentAlert>)
    returns (table': seq<SentAlert>, attempts: seq<Attempt>)
    ensures table' == table + SavedRecords(attempts)
    ensures user.telegramId !in criteriaOf ==> attempts == []
    ensures forall i :: 0 <= i < |attempts| ==>
              attempts[i].userIndex == userIndex && Justified(attempts[i], user, ads, criteriaOf, deliver)
    ensures Ordered(attempts)
    ensures CheckedBeforeSending(table, attempts, lookupErrors)
    ensures user.telegramId in criteriaOf ==>
              HandledUpTo(ads, criteriaOf[user.telegramId], user.telegramId, lookupErrors, attempts, table', |ads|)
  {
    table' := table;
    attempts := [];
    if user.telegramId !in criteriaOf {
      return;
    }
    var criteria := criteriaOf[user.telegramId];
    var j := 0;
    while j < |ads|
      invariant 0 <= j <= |ads|
      invariant table' == table + SavedRecords(attempts)
      invariant forall i :: 0 <= i < |attempts| ==>
                  && attempts[i].userIndex == userIndex && attempts[i].adIndex < j
                  && Justified(attempts[i], user, ads, criteriaOf, deliver)
      invariant Ordered(attempts)
      invariant CheckedBeforeSending(table, attempts, lookupErrors)
      invariant HandledUpTo(ads, criteria, user.telegramId, lookupErrors, attempts, table', j)
    {
      var ad := ads[j];
      ghost var before, tableBefore := attempts, table';
      if HasAlertBeenSent(table', user.telegramId, ad.id, lookupErrors) {
        assert Handled(ads, criteria, user.telegramId, lookupErrors, attempts, table', j);
        HandledExtend(ads, criteria, user.telegramId, lookupErrors, attempts, table', j);
      } else {
        var score := CalculateScore(ad, criteria);
        if score.scoreTotal > 0 {
          var a := Attempt(userIndex, j, user.telegramId, ad.id, score, deliver(user.telegramId, ad.id));
          table' := SendAlert(a, table');
          SendStep(userIndex, user, ads, criteriaOf, lookupErrors, deliver, table, before, tableBefore, a, table', j);
          attempts := attempts + [a];
        } else {
          assert Handled(ads, criteria, user.telegramId, lookupErrors, attempts, table', j);
          HandledExtend(ads, criteria, user.telegramId, lookupErrors, attempts, table', j);
        }
      }
      j := j + 1;
    }
  }

  /** One `sendAlert` call for the listing at `j` keeps the loop invariants
      of `ProcessUser`, with `j` dealt with. */
  lemma SendStep(userIndex: nat, user: User, ads: seq<Ad>, criteriaOf: map<int, Criteria>,
                 lookupErrors: set<(int, int)>, deliver: (int, int) -> Delivery, table: seq<SentAlert>,
                 before: seq<Attempt>, tableBefore: seq<SentAlert>, a: Attempt, table': seq<SentAlert>, j: int)
    requires 0 <= j < |ads| && user.telegramId in criteriaOf
    requires tableBefore == table + SavedRecords(before)
    requires forall i :: 0 <= i < |before| ==>
               && before[i].userIndex == userIndex && before[i].adIndex < j
               && Justified(before[i], user, ads, criteriaOf, deliver)
    requires Ordered(before)
    requires CheckedBeforeSending(table, before, lookupErrors)
    requires HandledUpTo(ads, criteriaOf[user.telegramId], user.telegramId, lookupErrors, before, tableBefore, j)
    requires !HasAlertBeenSent(tableBefore, user.telegramId, ads[j].id, lookupErrors)
    requires a.userIndex == userIndex && a.adIndex == j && Justified(a, user, ads, criteriaOf, deliver)
    requires a.delivery == Delivered(true) ==> table' == tableBefore + [RecordOf(a)]
    requires a.delivery != Delivered(true) ==> table' == tableBefore
    ensures table' == table + SavedRecords(before + [a])
    ensures forall i :: 0 <= i < |before + [a]| ==>
              && (before + [a])[i].userIndex == userIndex && (before + [a])[i].adIndex < j + 1
              && Justified((before + [a])[i], user, ads, criteriaOf, deliver)
    ensures Ordered(before + [a])
    ensures CheckedBeforeSending(table, before + [a], lookupErrors)
    ensures HandledUpTo(ads, criteriaOf[user.telegramId], user.telegramId, lookupErrors, before + [a], table', j + 1)
  {
    var criteria := criteriaOf[user.telegramId];
    var attempts := before + [a];
    SavedRecordsSnoc(before, a);
    var extra := if a.delivery == Delivered(true) then [RecordOf(a)] else [];
    assert (table + SavedRecords(before)) + extra == table + (SavedRecords(before) + extra);
    CheckedGrows(table, before, a, lookupErrors);
    AppendAttempt(userIndex, user, ads, criteriaOf, deliver, before, a, j);
    HandledAfterSend(ads, criteria, user.telegramId, lookupErrors, before, tableBefore, a, table', j);
  }

  /** The attempt for listing `j`, checked against the table of the moment,
      deals with `j` and keeps the earlier listings dealt with. */
  lemma HandledAfterSend(ads: seq<Ad>, criteria: Criteria, userId: int, lookupErrors: set<(int, int)>,
                         before: seq<Attempt>, tableBefore: seq<SentAlert>, a: Attempt, table': seq<SentAlert>, j: int)
    requires 0 <= j < |ads| && a.adIndex == j
    requires HandledUpTo(ads, criteria, userId, lookupErrors, before, tableBefore, j)
    requires !HasAlertBeenSent(tableBefore, a.userId, a.adId, lookupErrors)
    requires table' == tableBefore + (if a.delivery == Delivered(true) then [RecordOf(a)] else [])
    ensures HandledUpTo(ads, criteria, userId, lookupErrors, before + [a], table', j + 1)
  {
    var attempts := before + [a];
    assert CheckedBeforeSending(tableBefore, [a], lookupErrors) by {
      assert [a][..0] == [] && tableBefore + SavedRecords([]) == tableBefore;
      assert CheckedAt(tableBefore, [a], lookupErrors, 0);
    }
    var extra := if a.delivery == Delivered(true) then [RecordOf(a)] else [];
    assert SavedRecords([a]) == extra by {
      assert [a][..0] == [] && SavedRecords([]) + extra == extra;
    }
    HandledGrows(ads, criteria, userId, lookupErrors, before, tableBefore, [a], j);
    assert tableBefore + SavedRecords([a]) == table';
    assert attempts[|attempts| - 1] == a;
    assert Handled(ads, criteria, userId, lookupErrors, attempts, table', j);
    HandledExtend(ads, criteria, userId, lookupErrors, attempts, table', j);
  }

  /** `sendAlert` after the message has been sent or has failed: the table
      only grows, by at most the attempt's own row, and afterwards holds the
      pair exactly when it did before or the send went out and was saved. */
  method SendAlert(a: Attempt, table: seq<SentAlert>) returns (table': seq<SentAlert>)
    ensures table <= table' && |table'| <= |table| + 1
    ensures forall k :: |table| <= k < |table'| ==> table'[k] == RecordOf(a)
    ensures Recorded(table', a.userId, a.adId) <==> Recorded(table, a.userId, a.adId) || a.delivery == Delivered(true)
    ensures a.delivery == Delivered(true) ==> table' == table + [RecordOf(a)]
    ensures a.delivery != Delivered(true) ==> table' == table
  {
    match a.delivery
    case SendFailed =>
      table' := table;
    case Delivered(saved) =>
      table' := if saved then table + [RecordOf(a)] else table;
      if saved {
        RecordedSnoc(table, RecordOf(a), a.userId, a.adId);
      }
  }

  /** Appending a row adds exactly its own pair to the recorded pairs. */
  lemma RecordedSnoc(table: seq<SentAlert>, row: SentAlert, userId: int, adId: int)
    ensures Recorded(table + [row], userId, adId) <==> Recorded(table, userId, adId) || (row.userId == userId && row.annonceId == adId)
  {
    var t := table + [row];
    if Recorded(table, userId, adId) {
      var k :| 0 <= k < |table| && table[k].userId == userId && table[k].annonceId == adId;
      assert t[k] == table[k];
    }
    if row.userId == userId && row.annonceId == adId {
      assert t[|table|] == row;
    }
    if k :| 0 <= k < |t| && t[k].userId == userId && t[k].annonceId == adId {
      if k < |table| {
        assert t[k] == table[k];
      }
    }
  }

  lemma CheckedConcat(table: seq<SentAlert>, first: seq<Attempt>, second: seq<Attempt>, lookupErrors: set<(int, int)>)
    requires CheckedBeforeSending(table, first, lookupErrors)
    requires CheckedBeforeSending(table + SavedRecords(first), second, lookupErrors)
    ensures CheckedBeforeSending(table, first + second, lookupErrors)
  {
    var all := first + second;
    forall i | 0 <= i < |all|
      ensures CheckedAt(table, all, lookupErrors, i)
    {
      if i < |first| {
        assert CheckedAt(table, first, lookupErrors, i);
        assert all[..i] == first[..i] && all[i] == first[i];
      } else {
        var i' := i - |first|;
        assert CheckedAt(table + SavedRecords(first), second, lookupErrors, i');
        ShiftedCheck(table, first, second, i);
      }
    }
  }

  lemma ShiftedCheck(table: seq<SentAlert>, first: seq<Attempt>, second: seq<Attempt>, i: int)
    requires |first| <= i < |first| + |second|
    ensures (first + second)[i] == second[i - |first|]
    ensures table + SavedRecords((first + second)[..i])
            == (table + SavedRecords(first)) + SavedRecords(second[..i - |first|])
  {
    assert (first + second)[..i] == first + second[..i - |first|];
    SavedRecordsAppend(first, second[..i - |first|]);
  }

  lemma {:induction false} CompleteStep(users: seq<User>, ads: seq<Ad>, criteriaOf: map<int, Criteria>, lookupErrors: set<(int, int)>,
                     attempts: seq<Attempt>, table: seq<SentAlert>, u: int,
                     userAttempts: seq<Attempt>, table': seq<SentAlert>)
    requires 0 <= u < |users|
    requires table' == table + SavedRecords(userAttempts) && CheckedBeforeSending(table, userAttempts, lookupErrors)
    requires CompleteUpTo(users, ads, criteriaOf, lookupErrors, attempts, table, u)
    requires forall i :: 0 <= i < |userAttempts| ==> userAttempts[i].userIndex == u
    requires users[u].telegramId in criteriaOf ==>
               HandledUpTo(ads, criteriaOf[users[u].telegramId], users[u].telegramId, lookupErrors, userAttempts, table', |ads|)
    ensures CompleteUpTo(users, ads, criteriaOf, lookupErrors, attempts + userAttempts, table', u + 1)
  {
    var all := attempts + userAttempts;
    forall v, j | 0 <= v < u + 1 && v < |users| && 0 <= j < |ads| && users[v].telegramId in criteriaOf
                  && CalculateScore(ads[j], criteriaOf[users[v].telegramId]).scoreTotal > 0
      ensures || (exists i :: 0 <= i < |all| && all[i].userIndex == v && all[i].adIndex == j)
              || HasAlertBeenSent(table', users[v].telegramId, ads[j].id, lookupErrors)
    {
      if v < u {
        if i :| 0 <= i < |attempts| && attempts[i].userIndex == v && attempts[i].adIndex == j {
          assert all[i] == attempts[i];
        } else {
          OnceStaysOnceAll(table, userAttempts, lookupErrors, users[v].telegramId, ads[j].id);
        }
      } else {
        assert Handled(ads, criteriaOf[users[v].telegramId], users[v].telegramId, lookupErrors, userAttempts, table', j);
        if i :| 0 <= i < |userAttempts| && userAttempts[i].adIndex == j {
          assert all[|attempts| + i] == userAttempts[i];
        }
      }
    }
  }

  lemma JustifiedConcat(users: seq<User>, ads: seq<Ad>, criteriaOf: map<int, Criteria>, deliver: (int, int) -> Delivery,
                        attempts: seq<Attempt>, u: int, userAttempts: seq<Attempt>)
    requires 0 <= u < |users|
    requires forall i :: 0 <= i < |attempts| ==>
               attempts[i].userIndex < u && JustifiedIn(attempts[i], users, ads, criteriaOf, deliver)
    requires Ordered(attempts)
    requires forall i :: 0 <= i < |userAttempts| ==>
               userAttempts[i].userIndex == u && Justified(userAttempts[i], users[u], ads, criteriaOf, deliver)
    requires Ordered(userAttempts)
    ensures forall i :: 0 <= i < |attempts + userAttempts| ==>
              && (attempts + userAttempts)[i].userIndex < u + 1
              && JustifiedIn((attempts + userAttempts)[i], users, ads, criteriaOf, deliver)
    ensures Ordered(attempts + userAttempts)
  {
    var all := attempts + userAttempts;
    forall i | 0 <= i < |all|
      ensures all[i].userIndex < u + 1 && JustifiedIn(all[i], users, ads, criteriaOf, deliver)
    {
      if i < |attempts| {
        assert all[i] == attempts[i];
      } else {
        assert all[i] == userAttempts[i - |attempts|];
      }
    }
    forall i, j | 0 <= i < j < |all|
      ensures || all[i].userIndex < all[j].userIndex
              || (all[i].userIndex == all[j].userIndex && all[i].adIndex < all[j].adIndex)
    {
      if j < |attempts| {
        assert all[i] == attempts[i] && all[j] == attempts[j];
      } else if i < |attempts| {
        assert all[i] == attempts[i] && all[j] == userAttempts[j - |attempts|];
      } else {
        assert all[i] == userAttempts[i - |attempts|] && all[j] == userAttempts[j - |attempts|];
      }
    }
  }

  /** Rows saved for one user extend the rows saved so far. */
  lemma TableStep(table: seq<SentAlert>, attempts: seq<Attempt>, userAttempts: seq<Attempt>)
    ensures (table + SavedRecords(attempts)) + SavedRecords(userAttempts) == table + SavedRecords(attempts + userAttempts)
  {
    SavedRecordsAppend(attempts, userAttempts);
    assert (table + SavedRecords(attempts)) + SavedRecords(userAttempts)
           == table + (SavedRecords(attempts) + SavedRecords(userAttempts));
  }

  /** `poll`: fetch the recent listings and the active users, then process
      the users one after the other. An exception from the fetches ends the
      cycle before anything is sent. */
  method Poll(fetch: Fetch, criteriaOf: map<int, Criteria>, lookupErrors: set<(int, int)>,
              deliver: (int, int) -> Delivery, table: seq<SentAlert>)
    returns (table': seq<SentAlert>, attempts: seq<Attempt>)
    ensures table' == table + SavedRecords(attempts)
    ensures fetch.FetchThrew? ==> attempts == []
    ensures fetch.Fetched? ==>
              && AllJustified(attempts, fetch.users, fetch.ads, criteriaOf, deliver)
              && CompleteUpTo(fetch.users, fetch.ads, criteriaOf, lookupErrors, attempts, table', |fetch.users|)
    ensures Ordered(attempts)
    ensures CheckedBeforeSending(table, attempts, lookupErrors)
  {
    table' := table;
    attempts := [];
    if fetch.FetchThrew? {
      return;
    }
    var ads, users := fetch.ads, fetch.users;
    var u := 0;
    while u < |users|
      invariant 0 <= u <= |users|
      invariant table' == table + SavedRecords(attempts)
      invariant forall i :: 0 <= i < |attempts| ==>
                  attempts[i].userIndex < u && JustifiedIn(attempts[i], users, ads, criteriaOf, deliver)
      invariant Ordered(attempts)
      invariant CheckedBeforeSending(table, attempts, lookupErrors)
      invariant CompleteUpTo(users, ads, criteriaOf, lookupErrors, attempts, table', u)
    {
      var tableNext, userAttempts := ProcessUser(u, users[u], ads, criteriaOf, lookupErrors, deliver, table');
      CheckedConcat(table, attempts, userAttempts, lookupErrors);
      CompleteStep(users, ads, criteriaOf, lookupErrors, attempts, table', u, userAttempts, tableNext);
      TableStep(table, attempts, userAttempts);
      JustifiedConcat(users, ads, criteriaOf, deliver, attempts, u, userAttempts);
      attempts := attempts + userAttempts;
      table' := tableNext;
      u := u + 1;
    }
  }

  // -----------------------------------------------------------------------
  // Dedup: what the table guarantees across and within cycles.
  // -----------------------------------------------------------------------

  /** At most one row per (user, listing) pair. */
  ghost predicate UniquePairs(table: seq<SentAlert>) {
    forall k1, k2 :: 0 <= k1 < k2 < |table| ==>
      !(table[k1].userId == table[k2].userId && table[k1].annonceId == table[k2].annonceId)
  }

  /** With working lookups and one row per pair, a pair already recorded
      when the cycle starts is never sent again. */
  lemma {:induction false} NoResendOfRecordedPair(table: seq<SentAlert>, attempts: seq<Attempt>)
    requires UniquePairs(table)
    requires CheckedBeforeSending(table, attempts, {})
    ensures forall i :: 0 <= i < |attempts| ==> !Recorded(table, attempts[i].userId, attempts[i].adId)
  {
    forall i | 0 <= i < |attempts|
      ensures !Recorded(table, attempts[i].userId, attempts[i].adId)
    {
      var t := table + SavedRecords(attempts[..i]);
      CheckedPrefix(table, attempts, {}, i);
      AtMostOneRowPerPair(table, attempts[..i]);
      assert CheckedAt(table, attempts, {}, i);
      UniqueRecordedOnce(t, attempts[i].userId, attempts[i].adId);
      NotRecordedShrinks(table, t, attempts[i].userId, attempts[i].adId);
    }
  }

  /** With working lookups, a cycle never writes a second row for a pair:
      a table with one row per pair keeps one row per pair. */
  lemma {:induction false} AtMostOneRowPerPair(table: seq<SentAlert>, attempts: seq<Attempt>)
    requires UniquePairs(table)
    requires CheckedBeforeSending(table, attempts, {})
    ensures UniquePairs(table + SavedRecords(attempts))
    decreases |attempts|
  {
    if |attempts| > 0 {
      var n := |attempts| - 1;
      var init, last := attempts[..n], attempts[n];
      assert attempts == init + [last];
      CheckedPrefix(table, attempts, {}, n);
      AtMostOneRowPerPair(table, init);
      SavedRecordsSnoc(init, last);
      var t0 := table + SavedRecords(init);
      assert CheckedAt(table, attempts, {}, n);
      UniqueRecordedOnce(t0, last.userId, last.adId);
      assert !Recorded(t0, last.userId, last.adId);
      if last.delivery == Delivered(true) {
        var t1 := t0 + [RecordOf(last)];
        assert table + SavedRecords(attempts) == t1;
        forall k1, k2 | 0 <= k1 < k2 < |t1|
          ensures !(t1[k1].userId == t1[k2].userId && t1[k1].annonceId == t1[k2].annonceId)
        {
          if k2 == |t0| {
            assert t1[k1] == t0[k1];
          } else {
            assert t1[k1] == t0[k1] && t1[k2] == t0[k2];
          }
        }
      } else {
        assert table + SavedRecords(attempts) == t0;
      }
    }
  }

  /** Each saved row is the record of a delivered attempt, and there are no
      more rows than attempts. */
  lemma {:induction false} SavedRecordsFromDelivered(attempts: seq<Attempt>)
    ensures |SavedRecords(attempts)| <= |attempts|
    ensures forall row :: row in SavedRecords(attempts) ==>
              exists i :: 0 <= i < |attempts| && attempts[i].delivery == Delivered(true) && row == RecordOf(attempts[i])
    decreases |attempts|
  {
    if |attempts| > 0 {
      var n := |attempts| - 1;
      var init := attempts[..n];
      SavedRecordsFromDelivered(init);
      forall row | row in SavedRecords(attempts)
        ensures exists i :: 0 <= i < |attempts| && attempts[i].delivery == Delivered(true) && row == RecordOf(attempts[i])
      {
        if row in SavedRecords(init) {
          var i :| 0 <= i < |init| && init[i].delivery == Delivered(true) && row == RecordOf(init[i]);
          assert attempts[i] == init[i];
        } else {
          assert attempts[n].delivery == Delivered(true) && row == RecordOf(attempts[n]);
        }
      }
    }
  }

  /** The record of every attempt that went out and was saved is among the
      saved rows, after the rows of the attempts before it. */
  lemma {:induction false} DeliveredIsSaved(attempts: seq<Attempt>, i: int)
    requires 0 <= i < |attempts| && attempts[i].delivery == Delivered(true)
    ensures exists k :: |SavedRecords(attempts[..i])| <= k < |SavedRecords(attempts)| && SavedRecords(attempts)[k] == RecordOf(attempts[i])
  {
    var before, rest := attempts[..i], attempts[i + 1..];
    assert attempts == (before + [attempts[i]]) + rest;
    SavedRecordsSnoc(before, attempts[i]);
    SavedRecordsAppend(before + [attempts[i]], rest);
    var k := |SavedRecords(before)|;
    assert SavedRecords(attempts)[k] == RecordOf(attempts[i]);
  }

  /** A pair whose lookup fails is attempted whenever it scores, whatever
      the table holds. */
  lemma AttemptedDespiteLookupError(users: seq<User>, ads: seq<Ad>, criteriaOf: map<int, Criteria>,
                                    lookupErrors: set<(int, int)>, attempts: seq<Attempt>, table: seq<SentAlert>,
                                    u: int, j: int)
    requires CompleteUpTo(users, ads, criteriaOf, lookupErrors, attempts, table, |users|)
    requires 0 <= u < |users| && 0 <= j < |ads| && users[u].telegramId in criteriaOf
    requires CalculateScore(ads[j], criteriaOf[users[u].telegramId]).scoreTotal > 0
    requires (users[u].telegramId, ads[j].id) in lookupErrors
    ensures exists i :: 0 <= i < |attempts| && attempts[i].userIndex == u && attempts[i].adIndex == j
  {
    assert !HasAlertBeenSent(table, users[u].telegramId, ads[j].id, lookupErrors);
  }

  /** An attempt that went out and was saved, for a pair the table already
      holds, leaves the pair with a second row. */
  lemma {:induction false} SecondRow(table: seq<SentAlert>, attempts: seq<Attempt>, i: int)
    requires 0 <= i < |attempts| && attempts[i].delivery == Delivered(true)
    requires Recorded(table, attempts[i].userId, attempts[i].adId)
    ensures exists k :: |table| <= k < |table + SavedRecords(attempts)|
                        && (table + SavedRecords(attempts))[k].userId == attempts[i].userId
                        && (table + SavedRecords(attempts))[k].annonceId == attempts[i].adId
    ensures !UniquePairs(table + SavedRecords(attempts))
  {
    var t := table + SavedRecords(attempts);
    DeliveredIsSaved(attempts, i);
    var m :| 0 <= m < |SavedRecords(attempts)| && SavedRecords(attempts)[m] == RecordOf(attempts[i]);
    assert t[|table| + m] == RecordOf(attempts[i]);
    var k0 :| 0 <= k0 < |table| && table[k0].userId == attempts[i].userId && table[k0].annonceId == attempts[i].adId;
    assert t[k0] == table[k0];
  }

  /** A failed lookup reads as "not sent": when the table already holds a
      pair whose lookup fails, whose score is positive and whose alert goes
      out and is saved, the cycle writes a second row for it. */
  lemma ResentAfterLookupError(users: seq<User>, ads: seq<Ad>, criteriaOf: map<int, Criteria>,
                               lookupErrors: set<(int, int)>, deliver: (int, int) -> Delivery,
                               table: seq<SentAlert>, attempts: seq<Attempt>, u: int, j: int)
    requires AllJustified(attempts, users, ads, criteriaOf, deliver)
    requires CompleteUpTo(users, ads, criteriaOf, lookupErrors, attempts, table + SavedRecords(attempts), |users|)
    requires 0 <= u < |users| && 0 <= j < |ads| && users[u].telegramId in criteriaOf
    requires CalculateScore(ads[j], criteriaOf[users[u].telegramId]).scoreTotal > 0
    requires (users[u].telegramId, ads[j].id) in lookupErrors
    requires deliver(users[u].telegramId, ads[j].id) == Delivered(true)
    requires Recorded(table, users[u].telegramId, ads[j].id)
    ensures exists k :: |table| <= k < |table + SavedRecords(attempts)|
                        && (table + SavedRecords(attempts))[k].userId == users[u].telegramId
                        && (table + SavedRecords(attempts))[k].annonceId == ads[j].id
    ensures !UniquePairs(table + SavedRecords(attempts))
  {
    AttemptedDespiteLookupError(users, ads, criteriaOf, lookupErrors, attempts, table + SavedRecords(attempts), u, j);
    var i :| 0 <= i < |attempts| && attempts[i].userIndex == u && attempts[i].adIndex == j;
    assert JustifiedIn(attempts[i], users, ads, criteriaOf, deliver);
    SecondRow(table, attempts, i);
  }

  /** A scoring pair that the table holds at two positions has been
      attempted, whatever the lookups did. */
  lemma AttemptedWhenHeldTwice(users: seq<User>, ads: seq<Ad>, criteriaOf: map<int, Criteria>,
                               lookupErrors: set<(int, int)>, attempts: seq<Attempt>, table: seq<SentAlert>,
                               u: int, j: int, k1: int, k2: int)
    requires CompleteUpTo(users, ads, criteriaOf, lookupErrors, attempts, table, |users|)
    requires 0 <= u < |users| && 0 <= j < |ads| && users[u].telegramId in criteriaOf
    requires CalculateScore(ads[j], criteriaOf[users[u].telegramId]).scoreTotal > 0
    requires 0 <= k1 < k2 < |table|
    requires table[k1].userId == users[u].telegramId && table[k1].annonceId == ads[j].id
    requires table[k2].userId == users[u].telegramId && table[k2].annonceId == ads[j].id
    ensures exists i :: 0 <= i < |attempts| && attempts[i].userIndex == u && attempts[i].adIndex == j
  {
    TwiceNotOnce(table, users[u].telegramId, ads[j].id, k1, k2);
  }

  /** A pair the table holds twice never reads as sent again: whenever it
      scores it is attempted, and a send and save that succeed add yet
      another row, in this cycle and so in every later one. */
  lemma RepeatedPairResent(users: seq<User>, ads: seq<Ad>, criteriaOf: map<int, Criteria>,
                           lookupErrors: set<(int, int)>, deliver: (int, int) -> Delivery,
                           table: seq<SentAlert>, attempts: seq<Attempt>, u: int, j: int, k1: int, k2: int)
    requires AllJustified(attempts, users, ads, criteriaOf, deliver)
    requires CompleteUpTo(users, ads, criteriaOf, lookupErrors, attempts, table + SavedRecords(attempts), |users|)
    requires 0 <= u < |users| && 0 <= j < |ads| && users[u].telegramId in criteriaOf
    requires CalculateScore(ads[j], criteriaOf[users[u].telegramId]).scoreTotal > 0
    requires 0 <= k1 < k2 < |table|
    requires table[k1].userId == users[u].telegramId && table[k1].annonceId == ads[j].id
    requires table[k2].userId == users[u].telegramId && table[k2].annonceId == ads[j].id
    ensures exists i :: 0 <= i < |attempts| && attempts[i].userIndex == u && attempts[i].adIndex == j
    ensures deliver(users[u].telegramId, ads[j].id) == Delivered(true) ==>
              exists k :: |table| <= k < |table + SavedRecords(attempts)|
                          && (table + SavedRecords(attempts))[k].userId == users[u].telegramId
                          && (table + SavedRecords(attempts))[k].annonceId == ads[j].id
  {
    var t := table + SavedRecords(attempts);
    assert t[k1] == table[k1] && t[k2] == table[k2];
    AttemptedWhenHeldTwice(users, ads, criteriaOf, lookupErrors, attempts, t, u, j, k1, k2);
    var i :| 0 <= i < |attempts| && attempts[i].userIndex == u && attempts[i].adIndex == j;
    if deliver(users[u].telegramId, ads[j].id) == Delivered(true) {
      assert JustifiedIn(attempts[i], users, ads, criteriaOf, deliver);
      SecondRow(table, attempts, i);
    }
  }

  /** Every row a cycle writes comes from a send that went out and whose
      save succeeded; it copies that attempt's freshly computed score and
      is marked SENT. A failed send writes nothing. */
  lemma RowsComeFromDeliveredAlerts(users: seq<User>, ads: seq<Ad>, criteriaOf: map<int, Criteria>,
                                    deliver: (int, int) -> Delivery, attempts: seq<Attempt>)
    requires AllJustified(attempts, users, ads, criteriaOf, deliver)
    ensures |SavedRecords(attempts)| <= |attempts|
    ensures forall row :: row in SavedRecords(attempts) ==>
              && row.userAction == "SENT"
              && row.scoreTotal > 0
              && exists i :: 0 <= i < |attempts| && attempts[i].delivery == Delivered(true)
                             && deliver(row.userId, row.annonceId) == Delivered(true)
                             && row == RecordOf(attempts[i])
                             && row.userId in criteriaOf
                             && attempts[i].score == CalculateScore(ads[attempts[i].adIndex], criteriaOf[row.userId])
  {
    SavedRecordsFromDelivered(attempts);
    forall row | row in SavedRecords(attempts)
      ensures && row.userAction == "SENT"
              && row.scoreTotal > 0
              && exists i :: 0 <= i < |attempts| && attempts[i].delivery == Delivered(true)
                             && deliver(row.userId, row.annonceId) == Delivered(true)
                             && row == RecordOf(attempts[i])
                             && row.userId in criteriaOf
                             && attempts[i].score == CalculateScore(ads[attempts[i].adIndex], criteriaOf[row.userId])
    {
      var i :| 0 <= i < |attempts| && attempts[i].delivery == Delivered(true) && row == RecordOf(attempts[i]);
      assert JustifiedIn(attempts[i], users, ads, criteriaOf, deliver);
    }
  }
}
