/** What is in a room, told from the steps alone: who is present, what is live, and which local track
    each live track and layer carries. */
module RoomLedger {
  import opened Layers
  import opened Wrappers
  import opened RoomModel

  /** The user publishes fewer ids than the cap. */
  predicate BelowCap(l: Limits, s: RoomState, u: Id) {
    |set id | id in s.tracks && s.tracks[id].source == u| + |set id | id in s.streams && s.streams[id].source == u|
      < l.maxTracks
  }

  predicate Publishes(s: RoomState, u: Id, id: Id) {
    || (id in s.tracks && s.tracks[id].source == u)
    || (id in s.streams && s.streams[id].source == u)
  }

  /** A publish the room takes: it is open, and the id is the user's own or there is room for one more. */
  predicate Takes(l: Limits, s: RoomState, u: Id, id: Id) {
    !s.closed && (Publishes(s, u, id) || BelowCap(l, s, u))
  }

  // ---- What each handler does to the ids --------------------------------------------------

  /** The same tracks, and the same streams with the same layers. */
  ghost predicate SameMedia(s: RoomState, t: RoomState) {
    && t.tracks == s.tracks && t.streams.Keys == s.streams.Keys
    && forall id :: id in s.streams ==>
         t.streams[id].source == s.streams[id].source && t.streams[id].layers == s.streams[id].layers
  }

  ghost predicate SamePeers(s: RoomState, t: RoomState) {
    t.presenters.Keys == s.presenters.Keys && t.viewers.Keys == s.viewers.Keys
  }

  /** Leaving takes what a presenter sources, and nothing else. */
  ghost predicate MediaLeft(s: RoomState, t: RoomState, gone: bool, u: Id) {
    && (forall id :: id in t.tracks <==> id in s.tracks && !(gone && s.tracks[id].source == u))
    && (forall id :: id in t.streams <==> id in s.streams && !(gone && s.streams[id].source == u))
    && (forall id :: id in t.tracks ==> t.tracks[id] == s.tracks[id])
    && (forall id :: id in t.streams ==>
          t.streams[id].source == s.streams[id].source && t.streams[id].layers == s.streams[id].layers)
  }

  /** The streams are the same but for `id`, which has the source and the layers. */
  ghost predicate StreamBecomes(s: RoomState, t: RoomState, id: Id, source: Id, layers: map<Layer, LocalTrack>) {
    && t.tracks == s.tracks && t.streams.Keys == s.streams.Keys + {id}
    && t.streams[id].source == source && t.streams[id].layers == layers
    && forall x :: x in s.streams && x != id ==> t.streams[x] == s.streams[x]
  }

  ghost predicate LayerBecomes(s: RoomState, t: RoomState, source: Id, id: Id, q: Layer, local: LocalTrack) {
    if id in s.streams then StreamBecomes(s, t, id, s.streams[id].source, s.streams[id].layers[q := local])
    else StreamBecomes(s, t, id, source, map[q := local])
  }

  /** What a step does to the tracks and streams. */
  ghost predicate MediaAfter(l: Limits, s: RoomState, step: Step, t: RoomState) {
    match step
    case DoJoin(_, _) => SameMedia(s, t)
    case DoSetQuality(_, _, _) => SameMedia(s, t)
    case DoLeave(u) => MediaLeft(s, t, !s.closed && u in s.presenters, u)
    case DoClose => if s.closed then SameMedia(s, t) else t.tracks == map[] && t.streams == map[]
    case DoPublishTrack(u, id, local) =>
      if Takes(l, s, u, id) then t.tracks == s.tracks[id := Router(u, local)] && t.streams == s.streams
      else SameMedia(s, t)
    case DoInjectTrack(u, id, local) =>
      if id in s.tracks then SameMedia(s, t)
      else t.tracks == s.tracks[id := Router(u, local)] && t.streams == s.streams
    case DoPublishLayer(u, id, q, local) =>
      if !s.closed && (id in s.streams || Takes(l, s, u, id)) then LayerBecomes(s, t, u, id, q, local) else SameMedia(s, t)
    case DoInjectLayer(u, id, q, local) =>
      if id in s.streams && q in s.streams[id].layers then SameMedia(s, t) else LayerBecomes(s, t, u, id, q, local)
  }

  ghost predicate PeersAfter(l: Limits, s: RoomState, step: Step, t: RoomState) {
    match step
    case DoJoin(u, role) =>
      && (forall x :: x in t.presenters <==> x in s.presenters || (x == u && Joins(l, s, u, role) && role == Presenter))
      && (forall x :: x in t.viewers <==> x in s.viewers || (x == u && Joins(l, s, u, role) && role == Viewer))
    case DoLeave(u) =>
      && (forall x :: x in t.presenters <==> x in s.presenters && (x != u || s.closed))
      && (forall x :: x in t.viewers <==> x in s.viewers && (x != u || s.closed || u in s.presenters))
    case DoClose => if s.closed then SamePeers(s, t) else t.presenters == map[] && t.viewers == map[]
    case _ => SamePeers(s, t)
  }

  /** A join that is let in: the room is open, does not have the user and is below the role's cap. */
  predicate Joins(l: Limits, s: RoomState, u: Id, role: Role) {
    && !s.closed && u !in s.presenters && u !in s.viewers
    && if role == Presenter then |s.presenters| < l.maxPresenters else |s.viewers| < l.maxViewers
  }

  lemma TakenIsAllowed(l: Limits, s: RoomState, u: Id, id: Id)
    ensures !s.closed && CanPublish(l, s, u, id) <==> Takes(l, s, u, id)
  {}

  lemma JoinAfter(l: Limits, s: RoomState, u: Id, role: Role)
    ensures MediaAfter(l, s, DoJoin(u, role), Join(l, s, u, role))
    ensures PeersAfter(l, s, DoJoin(u, role), Join(l, s, u, role))
  {
    if CanJoin(l, s, u, role) {
      EnterAfter(s, u, role);
    }
  }

  lemma EnterAfter(s: RoomState, u: Id, role: Role)
    ensures var t := Enter(s, u, role);
            && SameMedia(s, t)
            && (forall x :: x in t.presenters <==> x in s.presenters || (x == u && role == Presenter))
            && (forall x :: x in t.viewers <==> x in s.viewers || (x == u && role == Viewer))
  {
    assert forall id :: id in s.streams ==>
      JoinStreams(s.streams, u, role)[id] == JoinStream(s.streams[id], u, role);
  }

  lemma LeaveAfter(l: Limits, s: RoomState, u: Id)
    ensures MediaAfter(l, s, DoLeave(u), Leave(s, u))
    ensures PeersAfter(l, s, DoLeave(u), Leave(s, u))
  {}

  lemma InsertTrackAfter(s: RoomState, source: Id, id: Id, local: LocalTrack)
    ensures var t := InsertTrack(s, source, id, local);
            t.tracks == s.tracks[id := Router(source, local)] && t.streams == s.streams && SamePeers(s, t)
  {}

  lemma LayerBecomesAfter(s: RoomState, source: Id, id: Id, q: Layer, local: LocalTrack)
    ensures var t := if id in s.streams then SetLayer(s, id, q, local) else InsertStream(s, source, id, q, local);
            LayerBecomes(s, t, source, id, q, local) && SamePeers(s, t)
  {}

  lemma SetQualityAfter(l: Limits, s: RoomState, u: Id, id: Id, want: Layer)
    ensures var t := SetQuality(s, u, id, want).1;
            SameMedia(s, t) && SamePeers(s, t)
  {
    if SetQuality(s, u, id, want).1 != s {
      SwitchAfter(s, u, id, BestAvailable(want, s.streams[id].layers.Keys));
    }
  }

  lemma SwitchAfter(s: RoomState, u: Id, id: Id, q: Layer)
    requires Present(s, u) && id in s.streams && q in s.streams[id].layers
    ensures SameMedia(s, Switch(s, u, id, q)) && SamePeers(s, Switch(s, u, id, q))
  {
    SwitchPeers(s, u, id, q);
  }

  lemma SwitchPeers(s: RoomState, u: Id, id: Id, q: Layer)
    requires Present(s, u) && id in s.streams && q in s.streams[id].layers
    ensures SamePeers(s, Switch(s, u, id, q))
  {}

  lemma StepAfter(l: Limits, s: RoomState, step: Step)
    ensures MediaAfter(l, s, step, Apply(l, s, step)) && PeersAfter(l, s, step, Apply(l, s, step))
  {
    match step
    case DoJoin(u, role) => JoinAfter(l, s, u, role);
    case DoLeave(u) => LeaveAfter(l, s, u);
    case DoClose =>
    case DoPublishTrack(u, id, local) => TakenIsAllowed(l, s, u, id); InsertTrackAfter(s, u, id, local);
    case DoPublishLayer(u, id, q, local) => TakenIsAllowed(l, s, u, id); LayerBecomesAfter(s, u, id, q, local);
    case DoInjectTrack(u, id, local) => InsertTrackAfter(s, u, id, local);
    case DoInjectLayer(u, id, q, local) => LayerBecomesAfter(s, u, id, q, local);
    case DoSetQuality(u, id, want) => SetQualityAfter(l, s, u, id, want);
  }

  // ---- One step ------------------------------------------------------------------------

  /** The step ends everything a presenter sources. */
  predicate EndsSource(s: RoomState, step: Step, source: Id) {
    !s.closed && (step.DoClose? || (step == DoLeave(source) && source in s.presenters))
  }

  predicate StartsTrack(l: Limits, s: RoomState, step: Step, id: Id) {
    match step
    case DoPublishTrack(u, x, _) => x == id && Takes(l, s, u, id)
    case DoInjectTrack(_, x, _) => x == id
    case _ => false
  }

  predicate StartsStream(l: Limits, s: RoomState, step: Step, id: Id) {
    match step
    case DoPublishLayer(u, x, _, _) => x == id && Takes(l, s, u, id)
    case DoInjectLayer(_, x, _, _) => x == id
    case _ => false
  }

  /** A track is live after a step exactly if it was and its source stays, or the step publishes or
      injects it. */
  lemma TrackLiveExactly(l: Limits, s: RoomState, step: Step, id: Id)
    ensures id in Apply(l, s, step).tracks <==>
            (id in s.tracks && !EndsSource(s, step, s.tracks[id].source)) || StartsTrack(l, s, step, id)
  {
    StepAfter(l, s, step);
    LiveExactlyAfter(l, s, step, id, Apply(l, s, step));
  }

  lemma StreamLiveExactly(l: Limits, s: RoomState, step: Step, id: Id)
    ensures id in Apply(l, s, step).streams <==>
            (id in s.streams && !EndsSource(s, step, s.streams[id].source)) || StartsStream(l, s, step, id)
  {
    StepAfter(l, s, step);
    LiveExactlyAfter(l, s, step, id, Apply(l, s, step));
  }

  lemma LiveExactlyAfter(l: Limits, s: RoomState, step: Step, id: Id, t: RoomState)
    requires MediaAfter(l, s, step, t)
    ensures id in t.tracks <==> (id in s.tracks && !EndsSource(s, step, s.tracks[id].source)) || StartsTrack(l, s, step, id)
    ensures id in t.streams <==> (id in s.streams && !EndsSource(s, step, s.streams[id].source)) || StartsStream(l, s, step, id)
  {}

  predicate Leaves(s: RoomState, step: Step, u: Id) {
    !s.closed && (step.DoClose? || step == DoLeave(u))
  }

  /** A user is in the room after a step exactly if it was and does not leave, or joins and is let in. */
  lemma PresentExactly(l: Limits, s: RoomState, step: Step, u: Id)
    requires u in s.presenters ==> u !in s.viewers
    ensures u in Apply(l, s, step).presenters <==>
            (u in s.presenters && !Leaves(s, step, u)) || (step == DoJoin(u, Presenter) && Joins(l, s, u, Presenter))
    ensures u in Apply(l, s, step).viewers <==>
            (u in s.viewers && !Leaves(s, step, u)) || (step == DoJoin(u, Viewer) && Joins(l, s, u, Viewer))
  {
    StepAfter(l, s, step);
    PresentExactlyAfter(l, s, step, u, Apply(l, s, step));
  }

  lemma PresentExactlyAfter(l: Limits, s: RoomState, step: Step, u: Id, t: RoomState)
    requires PeersAfter(l, s, step, t) && (u in s.presenters ==> u !in s.viewers)
    ensures u in t.presenters <==>
            (u in s.presenters && !Leaves(s, step, u)) || (step == DoJoin(u, Presenter) && Joins(l, s, u, Presenter))
    ensures u in t.viewers <==>
            (u in s.viewers && !Leaves(s, step, u)) || (step == DoJoin(u, Viewer) && Joins(l, s, u, Viewer))
  {}

  lemma ClosedStep(l: Limits, s: RoomState, step: Step)
    ensures Apply(l, s, step).closed <==> s.closed || step.DoClose?
  {
    match step
    case DoJoin(_, _) =>
    case DoLeave(_) =>
    case DoClose =>
    case DoPublishTrack(_, _, _) =>
    case DoPublishLayer(_, _, _, _) =>
    case DoInjectTrack(_, _, _) =>
    case DoInjectLayer(_, _, _, _) =>
    case DoSetQuality(_, _, _) =>
  }

  /** A room is closed exactly if some step closed it. */
  lemma {:induction false} ClosedExactly(l: Limits, steps: seq<Step>)
    ensures Run(l, steps).closed <==> DoClose in steps
  {
    if steps != [] {
      ClosedExactly(l, steps[..|steps| - 1]);
      ClosedStep(l, Run(l, steps[..|steps| - 1]), steps[|steps| - 1]);
      assert steps == steps[..|steps| - 1] + [steps[|steps| - 1]];
    }
  }

  // ---- Streams over runs ---------------------------------------------------------------

  /** The user whose publish or injection the step is. */
  function By(step: Step): Id {
    match step
    case DoInjectTrack(u, _, _) => u
    case DoInjectLayer(u, _, _, _) => u
    case DoJoin(u, _) => u
    case DoLeave(u) => u
    case DoPublishTrack(u, _, _) => u
    case DoPublishLayer(u, _, _, _) => u
    case DoSetQuality(u, _, _) => u
    case DoClose => Id("")
  }

  /** The stream appears with step `i` and nothing has ended its source since. */
  ghost predicate StreamSince(l: Limits, steps: seq<Step>, i: nat, id: Id) {
    i < |steps| &&
    var m := |steps| - 1;
    var s := Run(l, steps[..m]);
    if i == m then id !in s.streams && StartsStream(l, s, steps[m], id)
    else StreamSince(l, steps[..m], i, id) && !EndsSource(s, steps[m], By(steps[i]))
  }

  /** What the last publish of the layer since step `i` carries; a closed room takes none. */
  function LastPublished(steps: seq<Step>, i: nat, id: Id, q: Layer): Option<LocalTrack> {
    if |steps| <= i then None
    else
      var m := |steps| - 1;
      if steps[m].DoPublishLayer? && steps[m].id == id && steps[m].q == q && DoClose !in steps[..m]
      then Some(steps[m].local)
      else LastPublished(steps[..m], i, id, q)
  }

  /** What the first injection of the layer since step `i` carries. */
  function FirstInjected(steps: seq<Step>, i: nat, id: Id, q: Layer): Option<LocalTrack> {
    if |steps| <= i then None
    else
      var m := |steps| - 1;
      var before := FirstInjected(steps[..m], i, id, q);
      if before == None && steps[m].DoInjectLayer? && steps[m].id == id && steps[m].q == q
      then Some(steps[m].local)
      else before
  }

  function LayerDue(steps: seq<Step>, i: nat, id: Id, q: Layer): Option<LocalTrack> {
    OrElse(LastPublished(steps, i, id, q), FirstInjected(steps, i, id, q))
  }

  /** Over every run: a stream is live if it appeared and nothing has ended its source since; its source is
      the one it appeared with; and its layers are exactly those published or injected since, each
      carrying the local track of its last publish, or of its first injection if nothing was
      published. */
  lemma {:induction false} StreamLedger(l: Limits, steps: seq<Step>, i: nat, id: Id)
    requires StreamSince(l, steps, i, id)
    ensures id in Run(l, steps).streams
    ensures Run(l, steps).streams[id].source == By(steps[i])
    ensures forall q :: Get(Run(l, steps).streams[id].layers, q) == LayerDue(steps, i, id, q)
  {
    var m := |steps| - 1;
    var s := Run(l, steps[..m]);
    StepAfter(l, s, steps[m]);
    ClosedExactly(l, steps[..m]);
    if i == m {
      FirstOffer(l, s, steps, id, Run(l, steps));
    } else {
      StreamLedger(l, steps[..m], i, id);
      NextOffer(l, s, steps, i, id, Run(l, steps));
    }
  }

  lemma FirstOffer(l: Limits, s: RoomState, steps: seq<Step>, id: Id, t: RoomState)
    requires steps != [] && id !in s.streams && (s.closed <==> DoClose in steps[..|steps| - 1])
    requires var step := steps[|steps| - 1]; StartsStream(l, s, step, id) && MediaAfter(l, s, step, t)
    ensures id in t.streams && t.streams[id].source == By(steps[|steps| - 1])
    ensures forall q :: Get(t.streams[id].layers, q) == LayerDue(steps, |steps| - 1, id, q)
  {
    forall q ensures Get(t.streams[id].layers, q) == LayerDue(steps, |steps| - 1, id, q) {
      DueGrows(steps, |steps| - 1, id, q);
      assert LayerDue(steps[..|steps| - 1], |steps| - 1, id, q) == None;
    }
  }

  lemma DueGrows(steps: seq<Step>, i: nat, id: Id, q: Layer)
    requires i < |steps|
    ensures var m := |steps| - 1;
            var before := LayerDue(steps[..m], i, id, q);
            LayerDue(steps, i, id, q) ==
            match steps[m]
            case DoPublishLayer(_, x, y, local) => if x == id && y == q && DoClose !in steps[..m] then Some(local) else before
            case DoInjectLayer(_, x, y, local) => if x == id && y == q then OrElse(before, Some(local)) else before
            case _ => before
  {}

  lemma NextOffer(l: Limits, s: RoomState, steps: seq<Step>, i: nat, id: Id, t: RoomState)
    requires i < |steps| - 1 && id in s.streams && (s.closed <==> DoClose in steps[..|steps| - 1])
    requires !EndsSource(s, steps[|steps| - 1], s.streams[id].source)
    requires MediaAfter(l, s, steps[|steps| - 1], t)
    requires forall q :: Get(s.streams[id].layers, q) == LayerDue(steps[..|steps| - 1], i, id, q)
    ensures id in t.streams && t.streams[id].source == s.streams[id].source
    ensures forall q :: Get(t.streams[id].layers, q) == LayerDue(steps, i, id, q)
  {
    forall q ensures Get(t.streams[id].layers, q) == LayerDue(steps, i, id, q) {
      DueGrows(steps, i, id, q);
      assert Get(s.streams[id].layers, q) == LayerDue(steps[..|steps| - 1], i, id, q);
    }
  }

  lemma StreamGoesOn(l: Limits, steps: seq<Step>, i: nat, id: Id)
    requires steps != [] && StreamSince(l, steps[..|steps| - 1], i, id)
    requires !EndsSource(Run(l, steps[..|steps| - 1]), steps[|steps| - 1], By(steps[i]))
    ensures StreamSince(l, steps, i, id)
  {}

  /** And every live stream appeared that way. */
  lemma {:induction false} LiveStreamAppeared(l: Limits, steps: seq<Step>, id: Id) returns (i: nat)
    requires id in Run(l, steps).streams
    ensures StreamSince(l, steps, i, id)
  {
    var m := |steps| - 1;
    StreamLiveExactly(l, Run(l, steps[..m]), steps[m], id);
    if id !in Run(l, steps[..m]).streams {
      i := m;
    } else {
      i := LiveStreamAppeared(l, steps[..m], id);
      StreamLedger(l, steps[..m], i, id);
      StreamGoesOn(l, steps, i, id);
    }
  }

  // ---- Tracks over runs ------------------------------------------------------------------

  /** The last publish of the track since step `i` that the room took. */
  function LastTaken(l: Limits, steps: seq<Step>, i: nat, id: Id): Option<Router> {
    if |steps| <= i then None
    else
      var m := |steps| - 1;
      if steps[m].DoPublishTrack? && steps[m].id == id && Takes(l, Run(l, steps[..m]), steps[m].userID, id)
      then Some(Router(steps[m].userID, steps[m].local))
      else LastTaken(l, steps[..m], i, id)
  }

  function FirstInjectedTrack(steps: seq<Step>, i: nat, id: Id): Option<Router> {
    if |steps| <= i then None
    else
      var m := |steps| - 1;
      var before := FirstInjectedTrack(steps[..m], i, id);
      if before == None && steps[m].DoInjectTrack? && steps[m].id == id
      then Some(Router(steps[m].source, steps[m].local))
      else before
  }

  function TrackDue(l: Limits, steps: seq<Step>, i: nat, id: Id): Option<Router> {
    OrElse(LastTaken(l, steps, i, id), FirstInjectedTrack(steps, i, id))
  }

  /** The track appears with step `i`, and nothing since has ended the source it had at the time. */
  ghost predicate TrackSince(l: Limits, steps: seq<Step>, i: nat, id: Id) {
    i < |steps| &&
    var m := |steps| - 1;
    var s := Run(l, steps[..m]);
    if i == m then id !in s.tracks && StartsTrack(l, s, steps[m], id)
    else
      && TrackSince(l, steps[..m], i, id)
      && (TrackDue(l, steps[..m], i, id).Some? ==> !EndsSource(s, steps[m], TrackDue(l, steps[..m], i, id).value.source))
  }

  lemma TrackDueGrows(l: Limits, steps: seq<Step>, i: nat, id: Id)
    requires i < |steps|
    ensures var m := |steps| - 1;
            var before := TrackDue(l, steps[..m], i, id);
            TrackDue(l, steps, i, id) ==
            match steps[m]
            case DoPublishTrack(u, x, local) =>
              if x == id && Takes(l, Run(l, steps[..m]), u, id) then Some(Router(u, local)) else before
            case DoInjectTrack(u, x, local) => if x == id then OrElse(before, Some(Router(u, local))) else before
            case _ => before
  {}

  /** The same for tracks: source and local track are those of the last publish that was taken, or of the
      first injection if none was. */
  lemma {:induction false} TrackLedger(l: Limits, steps: seq<Step>, i: nat, id: Id)
    requires TrackSince(l, steps, i, id)
    ensures Get(Run(l, steps).tracks, id) == TrackDue(l, steps, i, id) != None
  {
    var m := |steps| - 1;
    var s := Run(l, steps[..m]);
    StepAfter(l, s, steps[m]);
    TrackDueGrows(l, steps, i, id);
    if i == m {
      assert TrackDue(l, steps[..m], i, id) == None;
    } else {
      TrackLedger(l, steps[..m], i, id);
    }
    NextRouter(l, s, steps[m], id, TrackDue(l, steps[..m], i, id), TrackDue(l, steps, i, id), Run(l, steps));
  }

  lemma NextRouter(l: Limits, s: RoomState, step: Step, id: Id, before: Option<Router>, due: Option<Router>, t: RoomState)
    requires MediaAfter(l, s, step, t) && Get(s.tracks, id) == before
    requires if before.Some? then !EndsSource(s, step, before.value.source) else StartsTrack(l, s, step, id)
    requires due ==
             match step
             case DoPublishTrack(u, x, local) => if x == id && Takes(l, s, u, id) then Some(Router(u, local)) else before
             case DoInjectTrack(u, x, local) => if x == id then OrElse(before, Some(Router(u, local))) else before
             case _ => before
    ensures Get(t.tracks, id) == due != None
  {}

  lemma TrackGoesOn(l: Limits, steps: seq<Step>, i: nat, id: Id)
    requires steps != [] && TrackSince(l, steps[..|steps| - 1], i, id)
    requires var due := TrackDue(l, steps[..|steps| - 1], i, id);
             due.Some? ==> !EndsSource(Run(l, steps[..|steps| - 1]), steps[|steps| - 1], due.value.source)
    ensures TrackSince(l, steps, i, id)
  {}

  lemma {:induction false} LiveTrackAppeared(l: Limits, steps: seq<Step>, id: Id) returns (i: nat)
    requires id in Run(l, steps).tracks
    ensures TrackSince(l, steps, i, id)
  {
    var m := |steps| - 1;
    TrackLiveExactly(l, Run(l, steps[..m]), steps[m], id);
    if id !in Run(l, steps[..m]).tracks {
      i := m;
    } else {
      i := LiveTrackAppeared(l, steps[..m], id);
      TrackLedger(l, steps[..m], i, id);
      TrackGoesOn(l, steps, i, id);
    }
  }

  /** In an open room, a publish below the cap makes the id live with the local track it brings. */
  lemma PublishBelowCapGoesLive(l: Limits, s: RoomState, u: Id, id: Id, q: Layer, local: LocalTrack)
    requires !s.closed && BelowCap(l, s, u)
    ensures var t := Apply(l, s, DoPublishTrack(u, id, local));
            id in t.tracks && t.tracks[id] == Router(u, local)
    ensures var t := Apply(l, s, DoPublishLayer(u, id, q, local));
            id in t.streams && Get(t.streams[id].layers, q) == Some(local)
  {
    StepAfter(l, s, DoPublishTrack(u, id, local));
    StepAfter(l, s, DoPublishLayer(u, id, q, local));
  }

  /** What a joiner is put on: of every stream it does not source itself, the best layer for High as a
      presenter and for Medium as a viewer. */
  lemma JoinedLayerExactly(l: Limits, s: RoomState, u: Id, role: Role, id: Id)
    requires Joins(l, s, u, role) && id in s.streams && (exists q :: q in s.streams[id].layers)
    requires role == Presenter ==> s.streams[id].source != u
    ensures var recorded := Apply(l, s, DoJoin(u, role)).streams[id].recorded;
            u in recorded && IsBest(recorded[u], if role == Presenter then High else Medium, s.streams[id].layers.Keys)
  {
    assert Apply(l, s, DoJoin(u, role)).streams == JoinStreams(s.streams, u, role);
    JoinedLayer(s.streams[id], u, role);
  }

  lemma JoinedLayer(st: Stream, u: Id, role: Role)
    requires (exists q :: q in st.layers) && (role == Presenter ==> st.source != u)
    ensures var recorded := JoinStream(st, u, role).recorded;
            u in recorded && IsBest(recorded[u], if role == Presenter then High else Medium, st.layers.Keys)
  {}
}
