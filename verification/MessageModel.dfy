/** The messages of one channel as values: a queue that merges what it knows and forgets the oldest. */
module MessageModel {
  import opened Wrappers
  import opened Entities

  /** A cached message; born is the step of the run that put it in. */
  datatype Entry = Entry(id: string, body: MessageBody, born: nat)

  /** What a known message becomes: everything the newer one carries, the rest as it was. */
  function MergeBody(was: MessageBody, now: MessageBody): MessageBody {
    MessageBody(
      if now.content != "" then now.content else was.content,
      if now.edited.Some? then now.edited else was.edited,
      now.mentions.Or(was.mentions),
      now.embeds.Or(was.embeds),
      now.attachments.Or(was.attachments),
      if now.timestamp != 0 then now.timestamp else was.timestamp,
      if now.author.Some? then now.author else was.author,
      now.components.Or(was.components))
  }

  /** An update that carries nothing. */
  const NO_BODY := MessageBody("", None, NilSlice, NilSlice, NilSlice, 0, None, NilSlice)

  /** The fields an update carries replace the cached ones, and no other field changes. */
  lemma MergeTakesWhatIsSent(was: MessageBody, now: MessageBody)
    ensures var r := MergeBody(was, now);
      && (r.content == now.content || (now.content == "" && r.content == was.content))
      && (r.edited == now.edited || (now.edited == None && r.edited == was.edited))
      && (r.mentions == now.mentions || (now.mentions == NilSlice && r.mentions == was.mentions))
      && (r.embeds == now.embeds || (now.embeds == NilSlice && r.embeds == was.embeds))
      && (r.attachments == now.attachments || (now.attachments == NilSlice && r.attachments == was.attachments))
      && (r.timestamp == now.timestamp || (now.timestamp == 0 && r.timestamp == was.timestamp))
      && (r.author == now.author || (now.author == None && r.author == was.author))
      && (r.components == now.components || (now.components == NilSlice && r.components == was.components))
  {
  }

  /** Updates compose: two of them one after the other are one, and one that carries nothing changes nothing. */
  lemma MergesCompose(a: MessageBody, b: MessageBody, c: MessageBody)
    ensures MergeBody(MergeBody(a, b), c) == MergeBody(a, MergeBody(b, c))
    ensures MergeBody(a, NO_BODY) == a && MergeBody(NO_BODY, a) == a
  {
  }

  /** The position of the first message with this ID, or the length of the queue. */
  function IndexOf(q: seq<Entry>, id: string): (i: nat)
    ensures i <= |q| && (i < |q| ==> q[i].id == id)
    ensures forall j :: 0 <= j < i ==> q[j].id != id
  {
    if q == [] || q[0].id == id then 0 else 1 + IndexOf(q[1..], id)
  }

  /** MessageAdd. */
  function Post(q: seq<Entry>, e: Entry, limit: nat): seq<Entry> {
    var i := IndexOf(q, e.id);
    if i < |q| then q[i := q[i].(body := MergeBody(q[i].body, e.body))]
    else if |q| + 1 > limit then (q + [e])[|q| + 1 - limit..]
    else q + [e]
  }

  /** messageRemoveByID. */
  function Delete(q: seq<Entry>, id: string): seq<Entry> {
    var i := IndexOf(q, id);
    if i < |q| then Without(q, i) else q
  }

  function DeleteAll(q: seq<Entry>, ids: seq<string>): seq<Entry> {
    if ids == [] then q else Delete(DeleteAll(q, ids[..|ids| - 1]), ids[|ids| - 1])
  }

  /**
   What an event does to the messages of a channel. They are forgotten when the channel leaves the channel map or is
   replaced in it by a new object.
   */
  datatype Step = Posted(id: string, body: MessageBody) | Deleted(ids: seq<string>) | Forgotten | Unconcerned

  function Apply(q: seq<Entry>, n: nat, x: Step, limit: nat): seq<Entry> {
    match x
    case Posted(id, body) => Post(q, Entry(id, body, n), limit)
    case Deleted(ids) => DeleteAll(q, ids)
    case Forgotten => []
    case Unconcerned => q
  }

  function Run(xs: seq<Step>, limit: nat): seq<Entry> {
    if xs == [] then [] else Apply(Run(xs[..|xs| - 1], limit), |xs| - 1, xs[|xs| - 1], limit)
  }

  ghost predicate DistinctIDs(q: seq<Entry>) {
    forall i, j :: 0 <= i < j < |q| ==> q[i].id != q[j].id
  }

  /** In order of insertion, all of it before step n. */
  ghost predicate InOrder(q: seq<Entry>, n: nat) {
    && (forall i, j :: 0 <= i < j < |q| ==> q[i].born < q[j].born)
    && (forall i :: 0 <= i < |q| ==> q[i].born < n)
  }

  ghost predicate Bounded(q: seq<Entry>, n: nat, limit: nat) {
    DistinctIDs(q) && InOrder(q, n) && |q| <= limit
  }

  predicate Has(q: seq<Entry>, id: string) {
    IndexOf(q, id) < |q|
  }

  lemma PostKeepsBounded(q: seq<Entry>, e: Entry, limit: nat)
    requires limit > 0 && Bounded(q, e.born, limit)
    ensures Bounded(Post(q, e, limit), e.born + 1, limit)
  {
    var i := IndexOf(q, e.id);
    if i == |q| {
      assert forall j :: 0 <= j < |q| ==> q[j].id != e.id && q[j].born < e.born;
    }
  }

  /** A message not in the queue goes to the end; only a full queue loses one, its oldest. */
  lemma OnlyOldestEvicted(q: seq<Entry>, e: Entry, limit: nat)
    requires limit > 0 && |q| <= limit && !Has(q, e.id)
    ensures Post(q, e, limit) == (if |q| == limit then q[1..] else q) + [e]
  {
    if |q| == limit {
      assert (q + [e])[1..] == q[1..] + [e];
    }
  }

  /** A known message keeps its place and its birth, and no other message is touched. */
  lemma KnownMergedInPlace(q: seq<Entry>, e: Entry, limit: nat, i: nat)
    requires i < |q| && q[i].id == e.id && DistinctIDs(q)
    ensures Post(q, e, limit) == q[..i] + [q[i].(body := MergeBody(q[i].body, e.body))] + q[i + 1..]
  {
    assert IndexOf(q, e.id) == i;
  }

  lemma DeleteKeepsBounded(q: seq<Entry>, id: string, n: nat, limit: nat)
    requires Bounded(q, n, limit)
    ensures Bounded(Delete(q, id), n, limit)
  {
    var i := IndexOf(q, id);
    if i < |q| {
      var r := Without(q, i);
      assert forall j :: 0 <= j < |r| ==> r[j] == q[if j < i then j else j + 1];
    }
  }

  lemma WithoutElements(q: seq<Entry>, i: nat, e: Entry)
    requires i < |q|
    ensures e in Without(q, i) <==> exists j :: 0 <= j < |q| && j != i && q[j] == e
  {
    var r := Without(q, i);
    assert forall j :: 0 <= j < |r| ==> r[j] == q[if j < i then j else j + 1];
    if j :| 0 <= j < |q| && j != i && q[j] == e {
      assert r[if j < i then j else j - 1] == e;
    }
  }

  /** Deleting takes out exactly the message with this ID. */
  lemma DeleteTakesOne(q: seq<Entry>, id: string)
    requires DistinctIDs(q)
    ensures forall e :: e in Delete(q, id) <==> e in q && e.id != id
  {
    hide Without;
    var i := IndexOf(q, id);
    if i < |q| {
      forall e
        ensures e in Delete(q, id) <==> e in q && e.id != id
      {
        WithoutElements(q, i, e);
      }
    }
  }

  lemma {:induction false} DeleteAllTakesThose(q: seq<Entry>, ids: seq<string>, n: nat, limit: nat)
    requires Bounded(q, n, limit)
    ensures Bounded(DeleteAll(q, ids), n, limit)
    ensures forall e :: e in DeleteAll(q, ids) <==> e in q && e.id !in ids
  {
    if ids != [] {
      var front, last := ids[..|ids| - 1], ids[|ids| - 1];
      assert ids == front + [last];
      DeleteAllTakesThose(q, front, n, limit);
      DeleteKeepsBounded(DeleteAll(q, front), last, n, limit);
      DeleteTakesOne(DeleteAll(q, front), last);
    }
  }

  /** Over any run: distinct IDs, at most limit messages, oldest first. */
  lemma {:induction false} RunIsBounded(xs: seq<Step>, limit: nat)
    requires limit > 0
    ensures Bounded(Run(xs, limit), |xs|, limit)
  {
    if xs != [] {
      var front, x := xs[..|xs| - 1], xs[|xs| - 1];
      RunIsBounded(front, limit);
      match x
      case Posted(id, body) => PostKeepsBounded(Run(front, limit), Entry(id, body, |front|), limit);
      case Deleted(ids) => DeleteAllTakesThose(Run(front, limit), ids, |front|, limit);
      case _ =>
    }
  }

  /** The step takes this message out by name, or all messages. */
  predicate Kills(x: Step, id: string) {
    x.Forgotten? || (x.Deleted? && id in x.ids)
  }

  /** The body a message put in by step p has at the end of the run, if it is still there. */
  function Folded(xs: seq<Step>, p: nat): MessageBody
    requires p < |xs| && xs[p].Posted?
  {
    if p == |xs| - 1 then xs[p].body
    else
      var was, x := Folded(xs[..|xs| - 1], p), xs[|xs| - 1];
      if x.Posted? && x.id == xs[p].id then MergeBody(was, x.body) else was
  }

  /** What an entry says about the run: its birth put it in, nothing deleted it since, and its body is the merge. */
  ghost predicate Describes(xs: seq<Step>, e: Entry) {
    && e.born < |xs| && xs[e.born].Posted? && xs[e.born].id == e.id
    && e.body == Folded(xs, e.born)
    && forall k :: e.born < k < |xs| ==> !Kills(xs[k], e.id)
  }

  lemma DescribesNext(xs: seq<Step>, x: Step, e: Entry)
    requires Describes(xs, e) && !Kills(x, e.id) && !(x.Posted? && x.id == e.id)
    ensures Describes(xs + [x], e)
  {
    assert (xs + [x])[..|xs|] == xs;
  }

  lemma DescribesMerged(xs: seq<Step>, x: Step, e: Entry)
    requires Describes(xs, e) && x.Posted? && x.id == e.id
    ensures Describes(xs + [x], e.(body := MergeBody(e.body, x.body)))
  {
    assert (xs + [x])[..|xs|] == xs;
  }

  /** Every message of the queue is described by the run. */
  lemma {:induction false} RunDescribes(xs: seq<Step>, limit: nat)
    requires limit > 0
    ensures forall e <- Run(xs, limit) :: Describes(xs, e)
  {
    if xs != [] {
      var front, x := xs[..|xs| - 1], xs[|xs| - 1];
      assert xs == front + [x];
      RunDescribes(front, limit);
      RunIsBounded(front, limit);
      if x.Deleted? {
        DeleteAllTakesThose(Run(front, limit), x.ids, |front|, limit);
      }
      forall e <- Run(xs, limit)
        ensures Describes(xs, e)
      {
        StepDescribes(front, x, limit, e);
      }
    }
  }

  lemma StepDescribes(xs: seq<Step>, x: Step, limit: nat, e: Entry)
    requires forall d <- Run(xs, limit) :: Describes(xs, d)
    requires Bounded(Run(xs, limit), |xs|, limit) && limit > 0
    requires e in Apply(Run(xs, limit), |xs|, x, limit)
    requires !x.Forgotten? && (x.Deleted? ==> e in Run(xs, limit) && e.id !in x.ids)
    ensures Describes(xs + [x], e)
  {
    hide Describes;
    var q := Run(xs, limit);
    match x
    case Posted(id, body) =>
      var i := IndexOf(q, id);
      if i < |q| {
        KnownMergedInPlace(q, Entry(id, body, |xs|), limit, i);
        if e in q && e.id != id {
          DescribesNext(xs, x, e);
        } else {
          assert e == q[i].(body := MergeBody(q[i].body, body));
          DescribesMerged(xs, x, q[i]);
        }
      } else {
        OnlyOldestEvicted(q, Entry(id, body, |xs|), limit);
        if e in q {
          DescribesNext(xs, x, e);
        } else {
          NewlyDescribed(xs, x);
        }
      }
    case Deleted(ids) => DescribesNext(xs, x, e);
    case Unconcerned => DescribesNext(xs, x, e);
  }

  lemma NewlyDescribed(xs: seq<Step>, x: Step)
    requires x.Posted?
    ensures Describes(xs + [x], Entry(x.id, x.body, |xs|))
  {
  }

  /** The step puts a new message into the queue. */
  predicate Inserts(xs: seq<Step>, k: nat, limit: nat)
    requires k < |xs|
  {
    xs[k].Posted? && !Has(Run(xs[..k], limit), xs[k].id)
  }

  /** How many messages were put in from this step on. */
  function Births(xs: seq<Step>, limit: nat, from: nat): nat {
    if |xs| <= from then 0
    else Births(xs[..|xs| - 1], limit, from) + if Inserts(xs, |xs| - 1, limit) then 1 else 0
  }

  /** The message born at step p, and at most so many behind it. */
  ghost predicate Stands(q: seq<Entry>, p: nat, id: string, behind: nat) {
    exists i :: 0 <= i < |q| && q[i].born == p && q[i].id == id && |q| - 1 - i <= behind
  }

  lemma PostLeavesStanding(q: seq<Entry>, e: Entry, limit: nat, p: nat, id: string, behind: nat)
    requires Stands(q, p, id, behind) && |q| <= limit
    ensures Has(q, e.id) ==> Stands(Post(q, e, limit), p, id, behind)
    ensures !Has(q, e.id) && behind + 1 < limit ==> Stands(Post(q, e, limit), p, id, behind + 1)
  {
    var i :| 0 <= i < |q| && q[i].born == p && q[i].id == id && |q| - 1 - i <= behind;
    var r := Post(q, e, limit);
    if Has(q, e.id) {
      assert r[i].born == p && |r| == |q|;
    } else if behind + 1 < limit {
      OnlyOldestEvicted(q, e, limit);
      assert r[if |q| == limit then i - 1 else i] == q[i];
    }
  }

  lemma DeleteLeavesStanding(q: seq<Entry>, gone: string, p: nat, id: string, behind: nat)
    requires Stands(q, p, id, behind) && gone != id
    ensures Stands(Delete(q, gone), p, id, behind)
  {
    var i :| 0 <= i < |q| && q[i].born == p && q[i].id == id && |q| - 1 - i <= behind;
    hide IndexOf;
    var j, r := IndexOf(q, gone), Delete(q, gone);
    assert r[if j < i then i - 1 else i] == q[i];
  }

  lemma {:induction false} DeleteAllLeavesStanding(q: seq<Entry>, ids: seq<string>, p: nat, id: string, behind: nat)
    requires Stands(q, p, id, behind) && id !in ids
    ensures Stands(DeleteAll(q, ids), p, id, behind)
  {
    if ids != [] {
      DeleteAllLeavesStanding(q, ids[..|ids| - 1], p, id, behind);
      DeleteLeavesStanding(DeleteAll(q, ids[..|ids| - 1]), ids[|ids| - 1], p, id, behind);
    }
  }

  /** A message that came in and was never deleted is gone only if limit newer ones came in after it. */
  lemma {:induction false} StaysUntilCrowdedOut(xs: seq<Step>, limit: nat, p: nat)
    requires p < |xs| && Inserts(xs, p, limit)
    requires forall k :: p < k < |xs| ==> !Kills(xs[k], xs[p].id)
    requires Births(xs, limit, p + 1) < limit
    ensures Stands(Run(xs, limit), p, xs[p].id, Births(xs, limit, p + 1))
  {
    var front, x := xs[..|xs| - 1], xs[|xs| - 1];
    RunIsBounded(front, limit);
    if p == |xs| - 1 {
      var e := Entry(x.id, x.body, p);
      OnlyOldestEvicted(Run(front, limit), e, limit);
      assert Run(xs, limit)[|Run(xs, limit)| - 1] == e;
    } else {
      assert front[..p] == xs[..p];
      StaysUntilCrowdedOut(front, limit, p);
      var behind := Births(front, limit, p + 1);
      match x
      case Posted(id, body) =>
        PostLeavesStanding(Run(front, limit), Entry(id, body, |front|), limit, p, xs[p].id, behind);
      case Deleted(ids) => DeleteAllLeavesStanding(Run(front, limit), ids, p, xs[p].id, behind);
      case Unconcerned =>
    }
  }
}
