/**
The canonical comment behind the controller: read, check, write, read back, under
at-least-once delivery and writes that may not land.
*/
module CommentStore {
  import opened Wrappers
  import opened Controller

  /** One delivery of an update, as its caller saw the package. */
  datatype Update = Update(revision: int, stage: Stage, key: string, target: Stage)

  /** What the update would write: nothing for a duplicate or a refusal. */
  function Wanted(s: State, u: Update): Option<State> {
    if !StateOk(s) || u.key in s.completed || s.revision != u.revision || s.stage != u.stage then None
    else Transition(s, u.target, u.key, None)
  }

  class CanonicalCommentStore {
    /** The package state the comment holds. */
    var comment: State

    constructor (initial: State)
      ensures comment == initial
    {
      comment := initial;
    }

    /** `landed` says whether the write took effect; the answer is None for an error. */
    method Apply(u: Update, landed: bool) returns (r: Option<State>)
      modifies this
      ensures comment == if landed && Wanted(old(comment), u).Some? then Wanted(old(comment), u).value else old(comment)
      ensures r.Some? <==> StateOk(old(comment)) && (u.key in old(comment).completed || (landed && Wanted(old(comment), u).Some?))
      ensures r.Some? ==> r.value == comment && u.key in comment.completed
      ensures comment != old(comment) ==> old(comment).revision == u.revision && old(comment).stage == u.stage && comment.revision == u.revision + 1
    {
      var current := comment;
      if !StateOk(current) { return None; }
      if u.key in current.completed { return Some(current); }
      if current.revision != u.revision || current.stage != u.stage { return None; }
      var desired := Transition(current, u.target, u.key, None);
      if desired.None? { return None; }
      if landed { comment := desired.value; }
      if comment != desired.value { return None; }
      return desired;
    }

    /** Delivering one update any number of times applies it once, as soon as one write lands. */
    method ApplyRepeatedly(u: Update, landings: seq<bool>) returns (answers: seq<Option<State>>)
      modifies this
      ensures comment == if Wanted(old(comment), u).Some? && true in landings then Wanted(old(comment), u).value else old(comment)
      ensures |answers| == |landings|
      ensures forall i :: 0 <= i < |answers| ==>
        (answers[i].Some? <==> (StateOk(old(comment)) && u.key in old(comment).completed) || (Wanted(old(comment), u).Some? && exists j :: 0 <= j <= i && landings[j]))
      ensures forall i :: 0 <= i < |answers| && answers[i].Some? ==> answers[i].value == comment
    {
      ghost var start := comment;
      ghost var wanted := Wanted(comment, u);
      answers := [];
      var n := 0;
      while n < |landings|
        invariant 0 <= n <= |landings| && |answers| == n && start == old(comment) && wanted == Wanted(start, u)
        invariant comment == if wanted.Some? && exists j :: 0 <= j < n && landings[j] then wanted.value else start
        invariant forall i :: 0 <= i < n ==>
          (answers[i].Some? <==> (StateOk(start) && u.key in start.completed) || (wanted.Some? && exists j :: 0 <= j <= i && landings[j]))
        invariant forall i :: 0 <= i < n && answers[i].Some? ==> answers[i].value == comment
      {
        if wanted.Some? { WantedIsRecorded(start, u); }
        var r := Apply(u, landings[n]);
        answers := answers + [r];
        n := n + 1;
      }
    }
  }

  lemma WantedIsRecorded(s: State, u: Update)
    requires Wanted(s, u).Some?
    ensures StateOk(s) && u.key in Wanted(s, u).value.completed && StateOk(Wanted(s, u).value)
    ensures s.revision == u.revision && s.stage == u.stage && u.key !in s.completed && Wanted(s, u).value.revision == u.revision + 1
  {
  }

  /** Reading after the other's write, an update accepted before it is refused. */
  lemma SequentialUpdateIsRefused(s: State, first: Update, second: Update)
    requires Wanted(s, first).Some? && Wanted(s, second).Some?
    ensures Wanted(Wanted(s, first).value, second).None?
  {
    WantedIsRecorded(s, first);
  }
}
