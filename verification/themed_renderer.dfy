/**
  The themed rendering overlay: a renderer that sits above the diagram
  library's own renderer, lets it draw each shape or connection, and then
  repaints the node it got back with colours taken from the active theme.

  The delegate's drawing is outside the model: each draw operation receives
  the node the delegate returned (or `None` when it returned nothing).
  Element classification (bpmn-js `is`, which follows the metamodel's
  inheritance) is modelled as the set of type names the element satisfies.
 */
module ThemedRenderer {
  import opened Js

  /** Names of the theme variables the overlay reads. */
  const PrimaryKey := "--pp-primary"
  const AccentKey := "--pp-accent"
  const SurfaceKey := "--pp-surface"
  const BackgroundKey := "--pp-bg"
  const BorderKey := "--pp-border"
  const SuccessKey := "--pp-success"

  /** Built-in colour for each variable, used when the theme lacks it. */
  const PrimaryFallback := "#2563eb"
  const AccentFallback := "#ec4899"
  const SurfaceFallback := "#ffffff"
  const BackgroundFallback := "#f5f7fb"
  const BorderFallback := "#d2d7e0"
  const SuccessFallback := "#22c55e"

  /** Fill every Task gets, whatever the theme. */
  const TaskFill := "#ffffff"
  const EmphasisWidth: nat := 2

  /** Whatever the theme accessor yields: an object that may carry `cssVars`. */
  datatype ThemeValue = ThemeValue(cssVars: Option<map<string, string>>)

  /** The `getTheme` option: absent, or a function yielding the current theme. */
  datatype ThemeAccessor = NoAccessor | Accessor(current: Option<ThemeValue>)

  /** The renderer's configuration object. */
  datatype Config = Config(getTheme: ThemeAccessor, theme: Option<ThemeValue>)

  /** The configuration used when the module is created without options. */
  const DefaultConfig := Config(NoAccessor, None)

  /** A diagram element: the types it satisfies and, for a label, the element it labels. */
  datatype Element = Element(types: set<string>, labelTarget: Option<nat>)

  /** A value the overlay writes into an attribute. */
  datatype AttrValue = Text(s: string) | Number(n: nat)

  /** A colour object: attribute name to value, `None` standing for null. */
  type Attrs = map<string, Option<AttrValue>>

  /** A drawn node: its identity, its presentation attributes and its children. */
  datatype Node = Node(ref: nat, attrs: map<string, string>, children: seq<Node>)

  /** The six resolved colours a shape's attributes are chosen from. */
  datatype Palette = Palette(primary: string, accent: string, surface: string,
                             background: string, border: string, success: string)

  /** The theme the renderer consults on a draw call (`this.getTheme()`). */
  function ActiveTheme(config: Config): (r: Option<ThemeValue>)
    ensures config.getTheme.NoAccessor? ==> r.Some?
    ensures config.getTheme.Accessor? ==> r == config.getTheme.current
    ensures config.getTheme.NoAccessor? && config.theme.Some? ==> r == config.theme
    ensures config.getTheme.NoAccessor? && config.theme.None? ==> r == Some(ThemeValue(None))
  {
    match config.getTheme
    case Accessor(t) => t
    case NoAccessor => Some(config.theme.GetOr(ThemeValue(None)))
  }

  /** The theme's own entry for `key` (`theme?.cssVars?.[key]`), if any. */
  function Lookup(theme: Option<ThemeValue>, key: string): Option<string> {
    if theme.Some? && theme.value.cssVars.Some? && key in theme.value.cssVars.value
    then Some(theme.value.cssVars.value[key])
    else None
  }

  /** The theme's value for `key` when present and non-empty, else `fallback`. */
  function GetVar(theme: Option<ThemeValue>, key: string, fallback: string): (r: string)
    ensures fallback != "" ==> r != ""
    ensures Truthy(Lookup(theme, key)) ==> r == Lookup(theme, key).value
    ensures !Truthy(Lookup(theme, key)) ==> r == fallback
  {
    Or(Lookup(theme, key), fallback)
  }

  /** The six colours, each resolved against its built-in fallback. */
  function ResolvePalette(theme: Option<ThemeValue>): (p: Palette)
    ensures p.primary != "" && p.accent != "" && p.surface != ""
    ensures p.background != "" && p.border != "" && p.success != ""
  {
    Palette(GetVar(theme, PrimaryKey, PrimaryFallback),
            GetVar(theme, AccentKey, AccentFallback),
            GetVar(theme, SurfaceKey, SurfaceFallback),
            GetVar(theme, BackgroundKey, BackgroundFallback),
            GetVar(theme, BorderKey, BorderFallback),
            GetVar(theme, SuccessKey, SuccessFallback))
  }

  /** bpmn-js `is(element, type)`. */
  predicate Is(element: Element, typeName: string) {
    typeName in element.types
  }

  function Emphasised(fill: string, stroke: string): Attrs {
    map["fill" := Some(Text(fill)), "stroke" := Some(Text(stroke)),
        "stroke-width" := Some(Number(EmphasisWidth))]
  }

  function Plain(fill: string, stroke: string): Attrs {
    map["fill" := Some(Text(fill)), "stroke" := Some(Text(stroke))]
  }

  /**
    The colour object for a shape: the first of the checks Task, StartEvent,
    EndEvent, Gateway, Participant-or-Lane that the element passes decides,
    and an element passing none gets surface on border.
   */
  function ShapeColors(element: Element, theme: Option<ThemeValue>): (r: Attrs)
    ensures r.Keys == {"fill", "stroke", "stroke-width"} || r.Keys == {"fill", "stroke"}
    ensures forall a :: a in r ==> r[a].Some?
  {
    var p := ResolvePalette(theme);
    if Is(element, "bpmn:Task") then Emphasised(TaskFill, p.primary)
    else if Is(element, "bpmn:StartEvent") then Emphasised(p.surface, Or(Some(p.success), p.primary))
    else if Is(element, "bpmn:EndEvent") then Emphasised(p.surface, Or(Some(p.accent), p.primary))
    else if Is(element, "bpmn:Gateway") then Emphasised(p.surface, p.primary)
    else if Is(element, "bpmn:Participant") || Is(element, "bpmn:Lane") then Plain(p.background, p.border)
    else Plain(p.surface, p.border)
  }

  // ---------------------------------------------------------------------
  // Reference definition: the classification as a priority table.
  // ---------------------------------------------------------------------

  datatype Rule = TaskRule | StartEventRule | EndEventRule | GatewayRule | PoolRule | DefaultRule

  /** Each row: the types that select the rule; earlier rows take priority. */
  const RuleTable: seq<(set<string>, Rule)> := [
    ({"bpmn:Task"}, TaskRule),
    ({"bpmn:StartEvent"}, StartEventRule),
    ({"bpmn:EndEvent"}, EndEventRule),
    ({"bpmn:Gateway"}, GatewayRule),
    ({"bpmn:Participant", "bpmn:Lane"}, PoolRule)
  ]

  /** The rule of the first row sharing a type with `types`, else the default rule. */
  function FirstRule(types: set<string>, table: seq<(set<string>, Rule)>): (r: Rule)
    ensures r == DefaultRule || exists i :: 0 <= i < |table| && table[i].1 == r
  {
    if |table| == 0 then DefaultRule
    else if table[0].0 * types != {} then table[0].1
    else FirstRule(types, table[1..])
  }

  /** The attribute set each rule prescribes, stated directly over the palette. */
  function RuleColors(rule: Rule, p: Palette): Attrs {
    match rule
    case TaskRule => Emphasised(TaskFill, p.primary)
    case StartEventRule => Emphasised(p.surface, p.success)
    case EndEventRule => Emphasised(p.surface, p.accent)
    case GatewayRule => Emphasised(p.surface, p.primary)
    case PoolRule => Plain(p.background, p.border)
    case DefaultRule => Plain(p.surface, p.border)
  }

  // ---------------------------------------------------------------------
  // Painting the delegate's node.
  // ---------------------------------------------------------------------

  function Digit(d: nat): char
    requires d < 10
  {
    "0123456789"[d]
  }

  /** The decimal text of a natural number, as `String(n)` writes it. */
  function DecimalString(n: nat): (r: string)
    ensures |r| > 0
    decreases n
  {
    if n < 10 then [Digit(n)] else DecimalString(n / 10) + [Digit(n % 10)]
  }

  /** The text `setAttribute` stores for a value. */
  function AttrText(v: AttrValue): string {
    match v
    case Text(s) => s
    case Number(n) => DecimalString(n)
  }

  /**
    `after` is `before` with every non-null entry of `colors` written as an
    attribute: same identity, same children, every other attribute as it was.
   */
  ghost predicate PaintedWith(before: Node, after: Node, colors: Attrs) {
    && after.ref == before.ref
    && after.children == before.children
    && (forall a :: a in colors && colors[a].Some? ==>
          a in after.attrs && after.attrs[a] == AttrText(colors[a].value))
    && (forall a :: a in after.attrs && (a !in colors || colors[a].None?) ==>
          a in before.attrs && after.attrs[a] == before.attrs[a])
    && (forall a :: a in before.attrs ==> a in after.attrs)
  }

  /** `setAttribute(attr, value)` for each entry whose value is not null. */
  function SetAttributes(node: Node, colors: Attrs): (r: Node)
    ensures PaintedWith(node, r, colors)
  {
    node.(attrs := node.attrs + map a | a in colors && colors[a].Some? :: AttrText(colors[a].value))
  }

  /** Whether the overlay takes an element: every element that is not a label. */
  function CanRender(element: Element): (r: bool)
    ensures r <==> element.labelTarget.None?
  {
    element.labelTarget.None?
  }

  /**
    Draws a shape: `drawn` is what the delegate returned. The same node comes
    back, painted with the shape colours; the children are not visited.
   */
  function DrawShape(config: Config, drawn: Option<Node>, element: Element): (r: Option<Node>)
    ensures r.Some? <==> drawn.Some?
    ensures r.Some? ==> PaintedWith(drawn.value, r.value, ShapeColors(element, ActiveTheme(config)))
  {
    match drawn
    case None => None
    case Some(shape) => Some(SetAttributes(shape, ShapeColors(element, ActiveTheme(config))))
  }

  /** Draws a connection: only its `stroke` is set, to the primary colour. */
  function DrawConnection(config: Config, drawn: Option<Node>): (r: Option<Node>)
    ensures r.Some? <==> drawn.Some?
    ensures r.Some? ==> PaintedWith(drawn.value, r.value,
                          map["stroke" := Some(Text(GetVar(ActiveTheme(config), PrimaryKey, PrimaryFallback)))])
  {
    var stroke := GetVar(ActiveTheme(config), PrimaryKey, PrimaryFallback);
    if drawn.Some? && stroke != "" then Some(drawn.value.(attrs := drawn.value.attrs["stroke" := stroke]))
    else drawn
  }

  // ---------------------------------------------------------------------
  // Properties.
  // ---------------------------------------------------------------------

  /** The rule the table picks, row by row. */
  lemma FirstRuleOfTable(t: set<string>)
    ensures "bpmn:Task" in t ==> FirstRule(t, RuleTable) == TaskRule
    ensures "bpmn:Task" !in t && "bpmn:StartEvent" in t ==> FirstRule(t, RuleTable) == StartEventRule
    ensures "bpmn:Task" !in t && "bpmn:StartEvent" !in t && "bpmn:EndEvent" in t ==>
              FirstRule(t, RuleTable) == EndEventRule
    ensures "bpmn:Task" !in t && "bpmn:StartEvent" !in t && "bpmn:EndEvent" !in t && "bpmn:Gateway" in t ==>
              FirstRule(t, RuleTable) == GatewayRule
    ensures "bpmn:Task" !in t && "bpmn:StartEvent" !in t && "bpmn:EndEvent" !in t && "bpmn:Gateway" !in t ==>
              FirstRule(t, RuleTable) == FirstRule(t, RuleTable[4..])
  {
    var rows := RuleTable;
    if "bpmn:Task" in t {
      assert "bpmn:Task" in rows[0].0 * t;
      return;
    }
    assert rows[0].0 * t == {};
    rows := rows[1..];
    assert FirstRule(t, RuleTable) == FirstRule(t, rows);
    if "bpmn:StartEvent" in t {
      assert "bpmn:StartEvent" in rows[0].0 * t;
      return;
    }
    assert rows[0].0 * t == {};
    rows := rows[1..];
    assert FirstRule(t, RuleTable) == FirstRule(t, rows);
    if "bpmn:EndEvent" in t {
      assert "bpmn:EndEvent" in rows[0].0 * t;
      return;
    }
    assert rows[0].0 * t == {};
    rows := rows[1..];
    assert FirstRule(t, RuleTable) == FirstRule(t, rows);
    if "bpmn:Gateway" in t {
      assert "bpmn:Gateway" in rows[0].0 * t;
      return;
    }
    assert rows[0].0 * t == {};
    assert rows[1..] == RuleTable[4..];
  }

  /** The last row of the table: pools and lanes, and the default below it. */
  lemma LastRowsOfTable(t: set<string>)
    ensures ("bpmn:Participant" in t || "bpmn:Lane" in t) ==> FirstRule(t, RuleTable[4..]) == PoolRule
    ensures !("bpmn:Participant" in t || "bpmn:Lane" in t) ==> FirstRule(t, RuleTable[4..]) == DefaultRule
  {
    var rows := RuleTable[4..];
    if "bpmn:Participant" in t {
      assert "bpmn:Participant" in rows[0].0 * t;
    } else if "bpmn:Lane" in t {
      assert "bpmn:Lane" in rows[0].0 * t;
    } else {
      assert rows[0].0 * t == {};
      assert rows[1..] == [];
    }
  }

  /** The if-chain agrees with the priority table, row for row. */
  lemma ShapeColorsFollowRuleTable(element: Element, theme: Option<ThemeValue>)
    ensures ShapeColors(element, theme) == RuleColors(FirstRule(element.types, RuleTable), ResolvePalette(theme))
  {
    FirstRuleOfTable(element.types);
    LastRowsOfTable(element.types);
  }

  /** A Task is white with the primary stroke and width 2, even when it has other types too. */
  lemma TaskIsWhiteOnPrimary(element: Element, theme: Option<ThemeValue>)
    requires Is(element, "bpmn:Task")
    ensures ShapeColors(element, theme) ==
            map["fill" := Some(Text("#ffffff")),
                "stroke" := Some(Text(GetVar(theme, PrimaryKey, PrimaryFallback))),
                "stroke-width" := Some(Number(2))]
  {
  }

  /**
    Start and end events are stroked with success and accent. Since both are
    always non-empty, the `|| primary` arm is never taken: a theme without a
    success colour gives the built-in green, not the primary colour.
   */
  lemma EventStrokes(element: Element, theme: Option<ThemeValue>)
    requires !Is(element, "bpmn:Task")
    ensures Is(element, "bpmn:StartEvent") ==>
              ShapeColors(element, theme)["stroke"] == Some(Text(GetVar(theme, SuccessKey, SuccessFallback)))
    ensures Is(element, "bpmn:StartEvent") && !Truthy(Lookup(theme, SuccessKey)) ==>
              ShapeColors(element, theme)["stroke"] == Some(Text("#22c55e"))
    ensures !Is(element, "bpmn:StartEvent") && Is(element, "bpmn:EndEvent") ==>
              ShapeColors(element, theme)["stroke"] == Some(Text(GetVar(theme, AccentKey, AccentFallback)))
  {
  }

  /** Pools, lanes and unclassified shapes get no width, and fill/stroke from background/surface on border. */
  lemma PlainShapesHaveNoWidth(element: Element, theme: Option<ThemeValue>)
    requires !Is(element, "bpmn:Task") && !Is(element, "bpmn:StartEvent")
    requires !Is(element, "bpmn:EndEvent") && !Is(element, "bpmn:Gateway")
    ensures "stroke-width" !in ShapeColors(element, theme)
    ensures ShapeColors(element, theme)["stroke"] == Some(Text(GetVar(theme, BorderKey, BorderFallback)))
    ensures (Is(element, "bpmn:Participant") || Is(element, "bpmn:Lane")) ==>
              ShapeColors(element, theme)["fill"] == Some(Text(GetVar(theme, BackgroundKey, BackgroundFallback)))
    ensures !(Is(element, "bpmn:Participant") || Is(element, "bpmn:Lane")) ==>
              ShapeColors(element, theme)["fill"] == Some(Text(GetVar(theme, SurfaceKey, SurfaceFallback)))
  {
  }

  /** Without any configuration the theme is `{}` and every colour is its built-in fallback. */
  lemma DefaultConfigUsesFallbacks()
    ensures ActiveTheme(DefaultConfig) == Some(ThemeValue(None))
    ensures ResolvePalette(ActiveTheme(DefaultConfig)) ==
            Palette("#2563eb", "#ec4899", "#ffffff", "#f5f7fb", "#d2d7e0", "#22c55e")
  {
  }

  /** The stroke-width number is written as the text "2". */
  lemma EmphasisWidthText()
    ensures AttrText(Number(EmphasisWidth)) == "2"
  {
  }
}
