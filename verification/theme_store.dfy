/**
  The theme registry: the list of known themes, which one is active, and
  how that state is written to and restored from durable storage.

  Every action is a pure transition from one `Store` to the next. Durable
  storage is the `storage` field: `None` where no storage exists, otherwise
  the record under the store's key, given as what reading and parsing it
  yields. JSON encoding is outside the model: the record `persist` writes is
  the snapshot `Parsed(Some(themes), Some(currentThemeId))` that parsing the
  written text gives back.
 */
module ThemeStore {
  import opened Js

  /** A named palette of CSS custom properties. */
  datatype Theme = Theme(id: string, name: string, cssVars: map<string, string>)

  /** The in-memory state of the registry. */
  datatype State = State(currentThemeId: string, themes: seq<Theme>)

  /**
    The stored record as read back: nothing stored (or an empty string),
    text that does not parse (or parses to `null`), or a parsed object whose
    `themes` is kept only when it is an array and whose `currentThemeId` is
    kept only when it is a string.
   */
  datatype Saved = Missing | Malformed | Parsed(themes: Option<seq<Theme>>, currentThemeId: Option<string>)

  /** The registry together with durable storage (`None`: no storage available). */
  datatype Store = Store(state: State, storage: Option<Saved>)

  const DefaultTheme := Theme("default", "Default Light", map[
    "--pp-bg" := "#f5f7fb",
    "--pp-surface" := "#ffffff",
    "--pp-border" := "#d2d7e0",
    "--pp-primary" := "#2563eb",
    "--pp-accent" := "#ec4899",
    "--pp-text" := "#111827",
    "--pp-muted-text" := "#6b7280"
  ])

  /** The state a fresh registry starts in. */
  const InitialState := State(DefaultTheme.id, [DefaultTheme])

  /** The record `persist` leaves in storage for a state. */
  function Snapshot(s: State): Saved {
    Parsed(Some(s.themes), Some(s.currentThemeId))
  }

  /** Storage, where it exists, holds exactly the snapshot of the state. */
  predicate Synced(st: Store) {
    st.storage.Some? ==> st.storage.value == Snapshot(st.state)
  }

  /** No two themes share an id. */
  predicate UniqueIds(themes: seq<Theme>) {
    forall i, j :: 0 <= i < j < |themes| ==> themes[i].id != themes[j].id
  }

  /** Some theme in the list carries `id`. */
  predicate Known(themes: seq<Theme>, id: string) {
    exists i :: 0 <= i < |themes| && themes[i].id == id
  }

  /**
    The active theme: the first theme whose id is the current id, or the
    first theme when none matches; absent only for an empty list.
   */
  function CurrentTheme(s: State): (r: Option<Theme>)
    ensures r.Some? <==> |s.themes| > 0
    ensures r.Some? ==> r.value in s.themes
    ensures Known(s.themes, s.currentThemeId) ==>
              exists i :: 0 <= i < |s.themes| && s.themes[i] == r.value && r.value.id == s.currentThemeId
                          && forall j :: 0 <= j < i ==> s.themes[j].id != s.currentThemeId
    ensures !Known(s.themes, s.currentThemeId) && |s.themes| > 0 ==> r == Some(s.themes[0])
  {
    match Find(s.themes, (t: Theme) => t.id == s.currentThemeId)
    case Some(t) => Some(t)
    case None => if |s.themes| > 0 then Some(s.themes[0]) else None
  }

  /** Writes the snapshot of the state to storage; a no-op without storage. */
  function Persist(st: Store): (r: Store)
    ensures r.state == st.state
    ensures r.storage.Some? <==> st.storage.Some?
    ensures Synced(r)
  {
    if st.storage.None? then st else st.(storage := Some(Snapshot(st.state)))
  }

  /** Makes `id` the current theme when a theme carries it; otherwise changes nothing. */
  function SetCurrentTheme(st: Store, id: string): (r: Store)
    ensures !Known(st.state.themes, id) ==> r == st
    ensures Known(st.state.themes, id) ==> r.state == State(id, st.state.themes) && Synced(r)
    ensures r.storage.Some? <==> st.storage.Some?
  {
    match Find(st.state.themes, (t: Theme) => t.id == id)
    case None => st
    case Some(_) => Persist(st.(state := st.state.(currentThemeId := id)))
  }

  /**
    Inserts or replaces a theme by id: a theme whose id is already present
    takes the place of the first entry with that id; a new id is appended.
    An absent theme or one with an empty id changes nothing.
   */
  function UpsertTheme(st: Store, theme: Option<Theme>): (r: Store)
    ensures theme.None? || theme.value.id == "" ==> r == st
    ensures theme.Some? && theme.value.id != "" ==>
              && r.state.currentThemeId == st.state.currentThemeId
              && Synced(r)
              && (Known(st.state.themes, theme.value.id) ==>
                    exists i :: 0 <= i < |st.state.themes| && st.state.themes[i].id == theme.value.id
                                && (forall j :: 0 <= j < i ==> st.state.themes[j].id != theme.value.id)
                                && r.state.themes == st.state.themes[i := theme.value])
              && (!Known(st.state.themes, theme.value.id) ==> r.state.themes == st.state.themes + [theme.value])
    ensures |r.state.themes| >= |st.state.themes|
    ensures r.storage.Some? <==> st.storage.Some?
  {
    if theme.None? || theme.value.id == "" then st
    else
      var t := theme.value;
      var themes := st.state.themes;
      var themes' := match FirstIndex(themes, (u: Theme) => u.id == t.id)
        case Some(i) => themes[i := t]
        case None => themes + [t];
      Persist(st.(state := st.state.(themes := themes')))
  }

  /**
    Restores the registry from storage. Without storage nothing happens.
    Otherwise: with nothing stored the state is kept; a parsed record
    replaces the themes only by a non-empty list and the id only by a
    string; a malformed record resets to the built-in default theme. The
    resulting state is written back in every case.
   */
  function InitFromStorage(st: Store): (r: Store)
    ensures st.storage.None? ==> r == st
    ensures st.storage.Some? ==> Synced(r) && r.storage.Some?
    ensures st.storage == Some(Missing) ==> r.state == st.state
    ensures st.storage == Some(Malformed) ==> r.state == InitialState
    ensures st.storage.Some? && st.storage.value.Parsed? ==>
              var saved := st.storage.value;
              && (r.state.themes != st.state.themes ==> saved.themes == Some(r.state.themes) && |r.state.themes| > 0)
              && (saved.themes.Some? && |saved.themes.value| > 0 ==> r.state.themes == saved.themes.value)
              && (r.state.currentThemeId != st.state.currentThemeId ==> saved.currentThemeId == Some(r.state.currentThemeId))
              && (saved.currentThemeId.Some? ==> r.state.currentThemeId == saved.currentThemeId.value)
  {
    match st.storage
    case None => st
    case Some(Missing) => Persist(st)
    case Some(Malformed) => Persist(st.(state := InitialState))
    case Some(Parsed(themes, id)) =>
      var s := st.state;
      var s1 := if themes.Some? && |themes.value| > 0 then s.(themes := themes.value) else s;
      var s2 := if id.Some? then s1.(currentThemeId := id.value) else s1;
      Persist(st.(state := s2))
  }

  // ---------------------------------------------------------------------
  // Invariants over sequences of actions.
  // ---------------------------------------------------------------------

  /** The actions a caller can take on the registry. */
  datatype Action = Init | Select(id: string) | Upsert(theme: Option<Theme>)

  function Step(st: Store, a: Action): Store {
    match a
    case Init => InitFromStorage(st)
    case Select(id) => SetCurrentTheme(st, id)
    case Upsert(t) => UpsertTheme(st, t)
  }

  function Run(st: Store, actions: seq<Action>): Store
    decreases |actions|
  {
    if |actions| == 0 then st else Run(Step(st, actions[0]), actions[1..])
  }

  /** The registry's invariant: there is always a theme, and storage mirrors memory. */
  predicate Valid(st: Store) {
    |st.state.themes| > 0 && Synced(st)
  }

  /** Each single action keeps the invariant. */
  lemma StepKeepsValid(st: Store, a: Action)
    requires Valid(st)
    ensures Valid(Step(st, a))
  {
  }

  /** Any sequence of actions keeps the invariant. */
  lemma {:induction false} RunKeepsValid(st: Store, actions: seq<Action>)
    requires Valid(st)
    ensures Valid(Run(st, actions))
    decreases |actions|
  {
    if |actions| > 0 {
      StepKeepsValid(st, actions[0]);
      RunKeepsValid(Step(st, actions[0]), actions[1..]);
    }
  }

  /**
    From a fresh registry, whatever storage holds, initialising and then
    acting in any way leaves a non-empty theme list that storage mirrors,
    and the current theme always resolves.
   */
  lemma {:induction false} StartupThenActionsValid(storage: Option<Saved>, actions: seq<Action>)
    ensures Valid(Run(InitFromStorage(Store(InitialState, storage)), actions))
    ensures CurrentTheme(Run(InitFromStorage(Store(InitialState, storage)), actions).state).Some?
  {
    var st := InitFromStorage(Store(InitialState, storage));
    assert Valid(st);
    RunKeepsValid(st, actions);
  }

  /**
    Restoring any registry, whatever state it held before, from the
    snapshot persist writes for a state with at least one theme yields
    exactly that state, with the same snapshot left in storage.
   */
  lemma PersistThenInitRoundTrip(s: State, before: State)
    requires |s.themes| > 0
    ensures InitFromStorage(Store(before, Some(Snapshot(s)))) == Store(s, Some(Snapshot(s)))
  {
  }

  /** After an upsert into a list with unique ids, ids stay unique and the theme is present. */
  lemma UpsertKeepsIdsUnique(st: Store, theme: Theme)
    requires UniqueIds(st.state.themes) && theme.id != ""
    ensures UniqueIds(UpsertTheme(st, Some(theme)).state.themes)
    ensures theme in UpsertTheme(st, Some(theme)).state.themes
  {
    var themes := st.state.themes;
    var r := UpsertTheme(st, Some(theme)).state.themes;
    if Known(themes, theme.id) {
      var i :| 0 <= i < |themes| && themes[i].id == theme.id
               && (forall j :: 0 <= j < i ==> themes[j].id != theme.id)
               && r == themes[i := theme];
      assert r[i] == theme;
    } else {
      assert r == themes + [theme];
      assert r[|themes|] == theme;
    }
  }

  /** A malformed record resets the registry to the built-in default and rewrites storage. */
  lemma MalformedRecordResets(s: State)
    ensures InitFromStorage(Store(s, Some(Malformed))) ==
            Store(State("default", [DefaultTheme]), Some(Parsed(Some([DefaultTheme]), Some("default"))))
  {
  }
}
