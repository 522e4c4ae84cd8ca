/**
 Page comments from the Meta webhook (app/routers/comments.py) and their upsert (db/sqlite_store.py):
 later events fill in or replace what earlier ones said.
 */
module Comments {
  import opened Wrappers

  datatype Comment = Comment(
    pageId: string, commentId: string, postId: Option<string>, parentId: Option<string>, fromId: Option<string>,
    fromName: Option<string>, message: Option<string>, verb: string, createdTime: Option<nat>)

  datatype CommentRow = CommentRow(comment: Comment, createdAt: nat, updatedAt: nat)

  type Table = map<(string, string), CommentRow>   // by workspace and comment id

  /** `comment.get("verb") or "add"`. */
  function Inserted(c: Comment): Comment {
    c.(verb := if c.verb == "" then "add" else c.verb)
  }

  /** The DO UPDATE clause. */
  function Merged(was: Comment, c: Comment): Comment {
    Inserted(c).(commentId := was.commentId,
                 postId := c.postId.OrElse(was.postId), parentId := c.parentId.OrElse(was.parentId),
                 fromId := c.fromId.OrElse(was.fromId), fromName := c.fromName.OrElse(was.fromName),
                 message := c.message.OrElse(was.message), createdTime := c.createdTime.OrElse(was.createdTime))
  }

  /** `save_page_comment`. */
  function Saved(t: Table, tenant: string, c: Comment, now: nat): Table {
    var key := (tenant, c.commentId);
    t[key := if key in t then CommentRow(Merged(t[key].comment, c), t[key].createdAt, now) else CommentRow(Inserted(c), now, now)]
  }

  /** Delivering the latest event once more changes the time stamp and nothing else. */
  lemma RedeliveryIsIdempotent(t: Table, tenant: string, c: Comment, now: nat, later: nat)
    ensures var once, key := Saved(t, tenant, c, now), (tenant, c.commentId);
            Saved(once, tenant, c, later) == once[key := once[key].(updatedAt := later)]
  {
  }

  // ---------------------------------------------------------------- whole runs

  datatype Event = Event(tenant: string, comment: Comment, now: nat)

  function Run(t: Table, events: seq<Event>): Table {
    if events == [] then t
    else var last := events[|events| - 1]; Saved(Run(t, events[..|events| - 1]), last.tenant, last.comment, last.now)
  }

  /** The comments in the events for one key, oldest first. */
  function For(events: seq<Event>, key: (string, string)): seq<Comment> {
    if events == [] then [] else
    var last, before := events[|events| - 1], For(events[..|events| - 1], key);
    if (last.tenant, last.comment.commentId) == key then before + [last.comment] else before
  }

  /** The newest value that is not null. */
  function LastValue<T>(values: seq<Option<T>>): Option<T> {
    if values == [] then None else values[|values| - 1].OrElse(LastValue(values[..|values| - 1]))
  }

  /** Nothing but nulls comes after place `i`. */
  ghost predicate Newest<T>(values: seq<Option<T>>, i: int) {
    0 <= i < |values| && values[i].Some? && forall j | i < j < |values| :: values[j].None?
  }

  lemma {:induction false} LastValueIsLast<T>(values: seq<Option<T>>)
    ensures LastValue(values).None? <==> forall i | 0 <= i < |values| :: values[i].None?
    ensures LastValue(values).Some? ==> exists i :: Newest(values, i) && values[i] == LastValue(values)
  {
    if values != [] {
      var n := |values| - 1;
      var earlier := values[..n];
      LastValueIsLast(earlier);
      if values[n].Some? {
        assert Newest(values, n);
      } else if LastValue(earlier).Some? {
        var i :| Newest(earlier, i) && earlier[i] == LastValue(earlier);
        assert Newest(values, i);
      }
    }
  }

  function Map<T>(cs: seq<Comment>, f: Comment -> T): seq<T> {
    if cs == [] then [] else Map(cs[..|cs| - 1], f) + [f(cs[|cs| - 1])]
  }

  lemma MapLast<T>(cs: seq<Comment>, c: Comment, f: Comment -> Option<T>)
    ensures LastValue(Map(cs + [c], f)) == f(c).OrElse(LastValue(Map(cs, f)))
  {
    assert (cs + [c])[..|cs|] == cs;
    assert (Map(cs, f) + [f(c)])[..|Map(cs, f)|] == Map(cs, f);
  }

  function PostId(c: Comment): Option<string> { c.postId }
  function ParentId(c: Comment): Option<string> { c.parentId }
  function FromId(c: Comment): Option<string> { c.fromId }
  function FromName(c: Comment): Option<string> { c.fromName }
  function Message(c: Comment): Option<string> { c.message }
  function CreatedTime(c: Comment): Option<nat> { c.createdTime }

  /** The coalesced fields after the comments `cs`, the newest last. */
  ghost predicate Fields(stored: Comment, cs: seq<Comment>) {
    && stored.postId == LastValue(Map(cs, PostId))
    && stored.parentId == LastValue(Map(cs, ParentId))
    && stored.fromId == LastValue(Map(cs, FromId))
    && stored.fromName == LastValue(Map(cs, FromName))
    && stored.message == LastValue(Map(cs, Message))
    && stored.createdTime == LastValue(Map(cs, CreatedTime))
  }

  /** What a row must hold after them. */
  ghost predicate Holds(stored: Comment, cs: seq<Comment>)
    requires cs != []
  {
    var last := cs[|cs| - 1];
    && stored.commentId == cs[0].commentId
    && stored.pageId == last.pageId
    && stored.verb == (if last.verb == "" then "add" else last.verb)
    && Fields(stored, cs)
  }

  lemma OneFields(c: Comment)
    ensures Fields(c, [c])
  {
    assert [c] == [] + [c];
    MapLast([], c, PostId);
    MapLast([], c, ParentId);
    MapLast([], c, FromId);
    MapLast([], c, FromName);
    MapLast([], c, Message);
    MapLast([], c, CreatedTime);
  }

  lemma FirstHolds(c: Comment)
    ensures Holds(Inserted(c), [c])
  {
    OneFields(c);
  }

  lemma MergedHolds(was: Comment, cs: seq<Comment>, c: Comment)
    requires cs != [] && Fields(was, cs) && was.commentId == cs[0].commentId
    ensures Holds(Merged(was, c), cs + [c])
  {
    MapLast(cs, c, PostId);
    MapLast(cs, c, ParentId);
    MapLast(cs, c, FromId);
    MapLast(cs, c, FromName);
    MapLast(cs, c, Message);
    MapLast(cs, c, CreatedTime);
  }

  /** What was stored for a key before, as the oldest word on it. */
  function Before(t: Table, key: (string, string)): seq<Comment> {
    if key in t then [t[key].comment] else []
  }

  /** After any events on any table: a workspace has a comment exactly when it had it or was sent one; a
      comment that nobody sent is as it was; and in one that was sent each field is the newest that was
      not null, counting what was stored before, the verb and the page the latest. */
  lemma {:induction false} RowsHoldTheLatest(t: Table, events: seq<Event>, key: (string, string))
    ensures key in Run(t, events) <==> key in t || For(events, key) != []
    ensures For(events, key) == [] && key in t ==> Run(t, events)[key] == t[key]
    ensures For(events, key) != [] ==> Holds(Run(t, events)[key].comment, Before(t, key) + For(events, key))
  {
    hide Fields, Merged, Inserted;
    if events != [] {
      var n := |events| - 1;
      var last := events[n];
      RowsHoldTheLatest(t, events[..n], key);
      var before := Run(t, events[..n]);
      assert Run(t, events) == Saved(before, last.tenant, last.comment, last.now);
      if (last.tenant, last.comment.commentId) == key {
        var cs := Before(t, key) + For(events[..n], key);
        assert Before(t, key) + For(events, key) == cs + [last.comment];
        if key in before {
          if For(events[..n], key) == [] {
            assert cs == [t[key].comment];
            OneFields(t[key].comment);
          }
          MergedHolds(before[key].comment, cs, last.comment);
        } else {
          FirstHolds(last.comment);
          assert cs + [last.comment] == [last.comment];
        }
      }
    }
  }

  /** When the events for one key were stored. */
  function Times(events: seq<Event>, key: (string, string)): seq<nat> {
    if events == [] then [] else
    var last, before := events[|events| - 1], Times(events[..|events| - 1], key);
    if (last.tenant, last.comment.commentId) == key then before + [last.now] else before
  }

  /** A row keeps the time it was created, by the first event if it was not there, and bears that of the
      last one. */
  lemma {:induction false} RowsAreDated(t: Table, events: seq<Event>, key: (string, string))
    ensures var times := Times(events, key);
            && (times == [] <==> For(events, key) == [])
            && (times != [] ==> (
                  && key in Run(t, events) && Run(t, events)[key].updatedAt == times[|times| - 1]
                  && Run(t, events)[key].createdAt == if key in t then t[key].createdAt else times[0]))
  {
    hide Merged, Inserted, Holds;
    if events != [] {
      var n := |events| - 1;
      var last, before := events[n], Run(t, events[..n]);
      RowsAreDated(t, events[..n], key);
      RowsHoldTheLatest(t, events[..n], key);
      assert Run(t, events) == Saved(before, last.tenant, last.comment, last.now);
      assert For(events, key) == For(events[..n], key) + (if (last.tenant, last.comment.commentId) == key then [last.comment] else []);
    }
  }
}
