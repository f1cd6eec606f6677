/** What one run cell knows about hooks on one token
    (src/apply-event.ts, src/worker/durable-objects/WorkflowRunDO.ts).

    `live` are the stored hooks on the token; `created` every `hook_created` row of
    the log, on any token; `fenced` the cancelled reservations; `forced` the delivery
    fences of forced takeovers; `disposed` the hooks the run disposed itself. */
module HookCell {
  import opened Prelude
  import opened HookToken

  datatype Phase = Missing | Active | Terminal | Expired

  /** The event claim `tokenClaimId:hookIdClaimId` of one admission. */
  datatype Key = Key(token: Option<ClaimId>, hookId: ClaimId)

  /** A journaled creation. `under` is a history variable: the token claim it committed under. */
  datatype Created = Created(onToken: bool, claimedFrom: Option<Owner>, under: Option<ClaimId>)

  datatype Cell = Cell(
    phase: Phase, live: map<HookId, Option<nat>>, created: map<HookId, Created>,
    fenced: set<Key>, forced: map<HookId, Owner>, disposed: set<HookId>)

  const EMPTY := Cell(Missing, map[], map[], {}, map[], {})

  function Rank(p: Phase): nat {
    match p case Missing => 0 case Active => 1 case Terminal => 2 case Expired => 3
  }

  function Exact(id: ClaimId): Key { Key(Some(id), id) }

  /** The token claim a key commits under, when the key is the exact form. */
  function Under(key: Key): Option<ClaimId> {
    if key == Key(Some(key.hookId), key.hookId) then Some(key.hookId) else None
  }

  predicate Over(c: Cell) { c.phase.Terminal? || c.phase.Expired? }

  predicate Live(c: Cell, h: HookId) { c.phase.Active? && h in c.live }

  /** The hook was created and is gone for good, or its run has ended. */
  predicate Dead(c: Cell, h: HookId) { Over(c) || (h in c.created && h !in c.live) }

  /** The hook was created on this token (or its run has ended). */
  predicate Known(c: Cell, h: HookId) { Over(c) || (h in c.created && c.created[h].onToken) }

  /** Nothing live stands on reservation `id`, and nothing can commit under it any more. */
  predicate Void(c: Cell, h: HookId, id: ClaimId) {
    || Dead(c, h)
    || (Exact(id) in c.fenced && (h in c.created ==> c.created[h].under != Some(id)))
  }

  /** A creation delivered now under `key` would commit. */
  predicate Able(c: Cell, h: HookId, key: Key) {
    c.phase.Active? && h !in c.created && key !in c.fenced
  }

  function HookOf(c: Cell, x: Owner): Hook
    requires x.hook in c.live
  {
    Hook(x, c.live[x.hook])
  }

  // ---- transactions -------------------------------------------------------

  datatype CreateAnswer = Committed(hook: Hook) | Refused

  /** Deliver a `hook_created` that was admitted (no foreign holder) under `key`. */
  function Create(c: Cell, x: Owner, key: Key, claimedFrom: Option<Owner>, retain: Option<nat>): (Cell, CreateAnswer) {
    if !c.phase.Active? || key in c.fenced then (c, Refused)
    else if x.hook in c.created then
      (c, if x.hook in c.live then Committed(HookOf(c, x)) else Refused)
    else
      (c.(created := c.created[x.hook := Created(true, claimedFrom, Under(key))], live := c.live[x.hook := retain]),
       Committed(Hook(x, retain)))
  }

  /** The same hook id created on some other token. */
  function CreateElsewhere(c: Cell, h: HookId): Cell {
    if !c.phase.Active? || h in c.created then c
    else c.(created := c.created[h := Created(false, None, None)])
  }

  function Dispose(c: Cell, h: HookId): Cell {
    if c.phase.Expired? || h !in c.live then c else c.(live := c.live - {h}, disposed := c.disposed + {h})
  }

  /** Terminal cleanup deletes a finished run's hook rows page by page. */
  function CleanTerminal(c: Cell, h: HookId): Cell {
    if c.phase.Terminal? then c.(live := c.live - {h}) else c
  }

  /** resolveHookTokenClaim: answer the committed hook, otherwise fence this very key. */
  function ResolveTokenClaim(c: Cell, h: HookId, key: Key): (Cell, bool) {
    if c.phase.Expired? then (c, false)
    else if h in c.live then (c, true)
    else (c.(fenced := c.fenced + {key}), false)
  }

  /** resolveExpiredHookClaim: fences both key forms the claim could be applied under. */
  function ResolveExpiredClaim(c: Cell, x: Owner, id: ClaimId): (Cell, Option<Hook>) {
    if Over(c) then (c, None)
    else if x.hook in c.live then (c, Some(HookOf(c, x)))
    else (c.(fenced := c.fenced + {Exact(id), Key(None, id)}), None)
  }

  function CommittedHook(c: Cell, x: Owner): Option<Hook> {
    if c.phase.Active? && x.hook in c.live then Some(HookOf(c, x)) else None
  }

  predicate Journaled(c: Cell, intent: Takeover) {
    && intent.claimer.hook in c.created
    && c.created[intent.claimer.hook].onToken
    && c.created[intent.claimer.hook].claimedFrom == Some(intent.victim)
  }

  /** resolveForcedHookClaim: the claimer's log decides, or the reservation is fenced. */
  function ResolveForced(c: Cell, intent: Takeover): (Cell, bool, Option<Hook>) {
    if c.phase.Expired? then (c, false, None)
    else if Journaled(c, intent) then
      (c, true, CommittedHook(c, intent.claimer))
    else (c.(fenced := c.fenced + {Exact(intent.id), Key(None, intent.id)}), false, None)
  }

  /** forceDisposeHook: the hook leaves and its delivery fence appears in one transaction. */
  function ForceDispose(c: Cell, h: HookId, claimedBy: Owner): Cell {
    if c.phase.Expired? || h in c.forced || h !in c.live then c
    else c.(live := c.live - {h}, forced := c.forced[h := claimedBy])
  }

  // ---- consistency and monotonicity ---------------------------------------

  ghost predicate CellOk(c: Cell) {
    && (c.phase.Missing? ==> c.created == map[])
    && (forall h :: h in c.live ==>
          && h in c.created && c.created[h].onToken && h !in c.forced && h !in c.disposed
          && (c.created[h].under.Some? ==> Exact(c.created[h].under.value) !in c.fenced))
    && (forall h :: h in c.forced ==> h in c.created)
    && (forall h :: h in c.disposed ==> h in c.created)
    && (c.phase.Active? ==> forall h :: h in c.created && c.created[h].onToken && h !in c.live ==>
          h in c.forced || h in c.disposed)
  }

  /** Everything a run cell may do to another cell's beliefs about it. */
  ghost predicate Grows(c: Cell, d: Cell) {
    match c case Cell(_, _, _, _, _, _) =>
    && Rank(c.phase) <= Rank(d.phase)
    && (Over(c) ==> d.created == c.created)
    && (forall h :: h in c.created ==> h in d.created && d.created[h] == c.created[h])
    && c.fenced <= d.fenced
    && (forall h :: h in c.forced ==> h in d.forced && d.forced[h] == c.forced[h])
    && c.disposed <= d.disposed
    && (forall h :: h in c.created && h in d.live ==> h in c.live && d.live[h] == c.live[h])
    && (forall h :: h in d.created && h !in c.created && d.created[h].under.Some? ==>
          Exact(d.created[h].under.value) !in c.fenced)
  }

  lemma GrowsKeepsBeliefs(c: Cell, d: Cell, h: HookId, id: ClaimId, key: Key)
    requires Grows(c, d)
    ensures Over(c) ==> Over(d)
    ensures Dead(c, h) ==> Dead(d, h)
    ensures Known(c, h) ==> Known(d, h)
    ensures Void(c, h, id) ==> Void(d, h, id)
    ensures !c.phase.Missing? && Able(d, h, key) ==> Able(c, h, key)
  {
  }

  lemma PhaseGrows(c: Cell, p: Phase)
    requires CellOk(c) && Rank(c.phase) < Rank(p) && (p.Active? ==> c.phase.Missing?)
    ensures Grows(c, c.(phase := p)) && CellOk(c.(phase := p))
  {
  }

  lemma CreateElsewhereGrows(c: Cell, h: HookId)
    requires CellOk(c)
    ensures Grows(c, CreateElsewhere(c, h)) && CellOk(CreateElsewhere(c, h))
  {
  }

  lemma DisposeGrows(c: Cell, h: HookId)
    requires CellOk(c)
    ensures Grows(c, Dispose(c, h)) && CellOk(Dispose(c, h))
    ensures Grows(c, CleanTerminal(c, h)) && CellOk(CleanTerminal(c, h))
  {
  }

  lemma CreateGrows(c: Cell, x: Owner, key: Key, from: Option<Owner>, retain: Option<nat>)
    requires CellOk(c)
    ensures var d := Create(c, x, key, from, retain).0; Grows(c, d) && CellOk(d)
  {
  }

  lemma FenceGrows(c: Cell, keys: set<Key>)
    requires CellOk(c)
    requires forall h :: h in c.live && c.created[h].under.Some? ==> Exact(c.created[h].under.value) !in keys
    ensures var d := c.(fenced := c.fenced + keys); Grows(c, d) && CellOk(d)
  {
  }

  lemma ForceDisposeGrows(c: Cell, h: HookId, claimer: Owner)
    requires CellOk(c)
    ensures var d := ForceDispose(c, h, claimer); Grows(c, d) && CellOk(d)
  {
  }
}
