/** The Firestore collection `reminders_by_date`, held in memory: a finite map from
    document id (a date key, normally `YYYY-MM-DD`) to a document whose `reminders`
    field is the bucket of reminder records for that date. */
module ReminderStore {
  import opened Optional
  import opened Text

  /** The creation instant stamped on a record (`datetime.utcnow()`). Its field is
      uninterpreted: the core only stores it and compares records for equality. */
  datatype Instant = Instant(value: int)

  /** One reminder record: the `text`, `timestamp` and `type` fields of the stored map. */
  datatype Reminder = Reminder(text: string, timestamp: Instant, kind: string)

  /** A stored document; `reminders` is `None` when the document has no such field. */
  datatype Document = Document(reminders: Option<seq<Reminder>>)

  type Collection = map<string, Document>

  /** `get_reminders_for_date`: the stored bucket, or the empty list when the document
      is missing or lacks the `reminders` field. A missing key is not an error. */
  function RemindersForDate(docs: Collection, date: string): (r: seq<Reminder>)
    ensures date in docs && docs[date].reminders.Some? ==> r == docs[date].reminders.value
    ensures date !in docs || docs[date].reminders.None? ==> r == []
  {
    if date in docs then
      match docs[date].reminders
      case Some(rs) => rs
      case None => []
    else []
  }

  /** Firestore's `ArrayUnion([x])` applied to an array: `x` is appended unless an
      equal element is already present. */
  function ArrayUnion(existing: seq<Reminder>, x: Reminder): (r: seq<Reminder>)
    ensures |existing| <= |r| && r[..|existing|] == existing
    ensures forall y :: y in r <==> y in existing || y == x
    ensures |r| == if x in existing then |existing| else |existing| + 1
  {
    if x in existing then existing else existing + [x]
  }

  /** The collection after `save_reminder(date, ...)` has stored the record `r`:
      the bucket for `date` becomes the union of the old bucket with `r`; every
      other document stays as it was. */
  function AfterSave(docs: Collection, date: string, r: Reminder): (docs': Collection)
    ensures docs'.Keys == docs.Keys + {date}
    ensures forall k :: k in docs && k != date ==> docs'[k] == docs[k]
    ensures docs'[date].reminders.Some?
  {
    docs[date := Document(Some(ArrayUnion(RemindersForDate(docs, date), r)))]
  }

  /** Saving on a date that has no document creates a bucket holding just `r`. */
  lemma SaveCreatesBucket(docs: Collection, date: string, r: Reminder)
    requires date !in docs
    ensures AfterSave(docs, date, r)[date] == Document(Some([r]))
  {
  }

  /** Save then get: the bucket read back is the earlier one followed by `r`, except
      when an equal record was already there (the `ArrayUnion` case). */
  lemma SaveThenGet(docs: Collection, date: string, r: Reminder)
    ensures var before := RemindersForDate(docs, date);
      RemindersForDate(AfterSave(docs, date, r), date)
        == if r in before then before else before + [r]
  {
  }

  /** Saving on one date leaves what every other date reads unchanged. */
  lemma SaveLeavesOtherDates(docs: Collection, date: string, other: string, r: Reminder)
    requires other != date
    ensures RemindersForDate(AfterSave(docs, date, r), other) == RemindersForDate(docs, other)
  {
  }

  /** Two distinct records saved in turn on a fresh date read back in the order saved. */
  lemma SaveTwiceKeepsOrder(docs: Collection, date: string, r1: Reminder, r2: Reminder)
    requires RemindersForDate(docs, date) == []
    requires r1 != r2
    ensures RemindersForDate(AfterSave(AfterSave(docs, date, r1), date, r2), date) == [r1, r2]
  {
  }

  /** One entry of the listing of all reminders: a document id and its bucket. */
  type Entry = (string, seq<Reminder>)

  function KeysOf(items: seq<Entry>): set<string>
  {
    set e | e in items :: e.0
  }

  /** The document ids of `items` are in strictly ascending order. */
  predicate StrictlyAscending(items: seq<Entry>)
  {
    forall i, j :: 0 <= i < j < |items| ==> LexLess(items[i].0, items[j].0)
  }

  /** In an ordered list every later id is above the first. */
  lemma HeadBelowTail(items: seq<Entry>)
    requires StrictlyAscending(items) && |items| > 0
    ensures forall x :: x in items[1..] ==> LexLess(items[0].0, x.0)
  {
  }

  /** An entry below every id of an ordered list can be put in front of it. */
  lemma ConsAscending(h: Entry, rest: seq<Entry>)
    requires StrictlyAscending(rest)
    requires forall x :: x in rest ==> LexLess(h.0, x.0)
    ensures StrictlyAscending([h] + rest)
  {
  }

  lemma KeysOfInsert(items: seq<Entry>, e: Entry, r: seq<Entry>)
    requires multiset(r) == multiset(items) + multiset{e}
    ensures KeysOf(r) == KeysOf(items) + {e.0}
  {
    forall x ensures x in r <==> x in items || x == e {
      assert x in r <==> x in multiset(r);
      assert x in items <==> x in multiset(items);
    }
  }

  /** Insertion of one entry, by id, into a list ordered by id. */
  function InsertByKey(items: seq<Entry>, e: Entry): (r: seq<Entry>)
    requires StrictlyAscending(items)
    requires e.0 !in KeysOf(items)
    ensures StrictlyAscending(r)
    ensures multiset(r) == multiset(items) + multiset{e}
  {
    if items == [] then [e]
    else if LexLess(e.0, items[0].0) then
      HeadBelowTail(items);
      assert items == [items[0]] + items[1..];
      assert forall x :: x in items ==> LexLess(e.0, x.0) by {
        forall x | x in items ensures LexLess(e.0, x.0) {
          if x != items[0] {
            LexTransitive(e.0, items[0].0, x.0);
          }
        }
      }
      ConsAscending(e, items);
      [e] + items
    else
      assert items[0] in items;
      LexTotal(e.0, items[0].0);
      HeadBelowTail(items);
      assert items == [items[0]] + items[1..];
      assert StrictlyAscending(items[1..]) by {
        forall i, j | 0 <= i < j < |items[1..]| ensures LexLess(items[1..][i].0, items[1..][j].0) {
          assert items[1..][i] == items[i + 1] && items[1..][j] == items[j + 1];
        }
      }
      assert KeysOf(items[1..]) <= KeysOf(items);
      var rest := InsertByKey(items[1..], e);
      assert forall x :: x in rest ==> LexLess(items[0].0, x.0) by {
        forall x | x in rest ensures LexLess(items[0].0, x.0) {
          assert x in multiset(rest);
          assert x in multiset(items[1..]) || x == e;
        }
      }
      ConsAscending(items[0], rest);
      [items[0]] + rest
  }

  /** `dict(sorted(m.items()))`: the entries of `m`, each once, ordered by id. */
  method SortedItems(m: map<string, seq<Reminder>>) returns (items: seq<Entry>)
    ensures StrictlyAscending(items)
    ensures KeysOf(items) == m.Keys
    ensures forall e :: e in items ==> e.0 in m && e.1 == m[e.0]
  {
    items := [];
    var rest := m.Keys;
    while rest != {}
      invariant rest <= m.Keys
      invariant StrictlyAscending(items)
      invariant KeysOf(items) == m.Keys - rest
      invariant forall e :: e in items ==> e.0 in m && e.1 == m[e.0]
      decreases |rest|
    {
      var k :| k in rest;
      var before := items;
      items := InsertByKey(items, (k, m[k]));
      KeysOfInsert(before, (k, m[k]), items);
      forall e | e in items ensures e.0 in m && e.1 == m[e.0] {
        assert e in multiset(items);
        assert e in multiset(before) || e == (k, m[k]);
      }
      rest := rest - {k};
    }
  }

  /** The collection `reminders_by_date`, updated in place by saves. */
  class ReminderCollection {
    var docs: Collection

    /** A handle on the collection as it currently stands in the store. */
    constructor (initial: Collection)
      ensures docs == initial
    {
      docs := initial;
    }

    /** `save_reminder(date_str, text, type)`: read the document; if it exists,
        `update` its `reminders` field with `ArrayUnion([new_reminder])`, otherwise
        `set` it to a fresh document holding `[new_reminder]`. */
    method SaveReminder(dateStr: string, text: string, now: Instant, kind: string := "manual")
      modifies this
      ensures docs == AfterSave(old(docs), dateStr, Reminder(text, now, kind))
    {
      var newReminder := Reminder(text, now, kind);
      if dateStr in docs {
        var existing := match docs[dateStr].reminders
          case Some(rs) => rs
          case None => [];
        docs := docs[dateStr := Document(Some(ArrayUnion(existing, newReminder)))];
      } else {
        docs := docs[dateStr := Document(Some([newReminder]))];
      }
    }

    /** `get_all_reminders`: every document id once, in ascending order, each with
        its bucket (or `[]` when the document lacks the field). The order in which
        the collection is streamed is left open. */
    method GetAllReminders() returns (items: seq<Entry>)
      ensures StrictlyAscending(items)
      ensures KeysOf(items) == docs.Keys
      ensures forall i, j :: 0 <= i < j < |items| ==> items[i].0 != items[j].0
      ensures forall e :: e in items ==> e.1 == RemindersForDate(docs, e.0)
    {
      var collected: map<string, seq<Reminder>> := map[];
      var pending := docs.Keys;
      while pending != {}
        invariant pending <= docs.Keys
        invariant collected.Keys == docs.Keys - pending
        invariant forall id :: id in collected ==> collected[id] == RemindersForDate(docs, id)
        decreases |pending|
      {
        var id :| id in pending;
        var bucket := match docs[id].reminders
          case Some(rs) => rs
          case None => [];
        collected := collected[id := bucket];
        pending := pending - {id};
      }
      items := SortedItems(collected);
      forall i, j | 0 <= i < j < |items| ensures items[i].0 != items[j].0 {
        if items[i].0 == items[j].0 {
          LexIrreflexive(items[i].0);
        }
      }
    }
  }
}
