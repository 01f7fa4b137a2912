/**
  The theme registry and the rendering overlay together: the overlay's
  theme accessor yields the registry's current theme, re-read on every
  draw call.
 */
module ThemedEditor {
  import opened Js
  import ThemeStore
  import ThemedRenderer

  /** The renderer configuration whose accessor yields the registry's current theme. */
  function RendererConfig(s: ThemeStore.State): ThemedRenderer.Config {
    var current := ThemeStore.CurrentTheme(s);
    var value := if current.Some? then Some(ThemedRenderer.ThemeValue(Some(current.value.cssVars))) else None;
    ThemedRenderer.Config(ThemedRenderer.Accessor(value), None)
  }

  /** The dark theme of the scenario below. */
  const Dark := ThemeStore.Theme("dark", "Dark", map["--pp-primary" := "#000000"])

  /** Adding the dark theme to the built-in list appends it, and selecting it makes it current. */
  lemma UpsertAndSelectDark(storage: Option<ThemeStore.Saved>)
    ensures var st := ThemeStore.SetCurrentTheme(
                        ThemeStore.UpsertTheme(ThemeStore.Store(ThemeStore.InitialState, storage), Some(Dark)), "dark");
            st.state == ThemeStore.State("dark", [ThemeStore.DefaultTheme, Dark])
  {
    var themes := ThemeStore.InitialState.themes;
    assert !ThemeStore.Known(themes, "dark") by {
      assert |themes| == 1 && themes[0].id == "default";
    }
    var st1 := ThemeStore.UpsertTheme(ThemeStore.Store(ThemeStore.InitialState, storage), Some(Dark));
    assert st1.state.themes == [ThemeStore.DefaultTheme, Dark];
    assert st1.state.themes[1].id == "dark";
  }

  /**
    Starting from the built-in default, adding a dark theme whose primary
    colour is black and selecting it makes it current, and a gateway is then
    stroked black.
   */
  lemma DarkThemeScenario(storage: Option<ThemeStore.Saved>)
    ensures var st := ThemeStore.SetCurrentTheme(
                        ThemeStore.UpsertTheme(ThemeStore.Store(ThemeStore.InitialState, storage), Some(Dark)), "dark");
            var gateway := ThemedRenderer.Element({"bpmn:ExclusiveGateway", "bpmn:Gateway"}, None);
            && ThemeStore.CurrentTheme(st.state) == Some(Dark)
            && ThemedRenderer.ShapeColors(gateway, ThemedRenderer.ActiveTheme(RendererConfig(st.state)))["stroke"]
               == Some(ThemedRenderer.Text("#000000"))
  {
    UpsertAndSelectDark(storage);
    var s := ThemeStore.State("dark", [ThemeStore.DefaultTheme, Dark]);
    assert s.themes[0].id != "dark" && s.themes[1] == Dark;
    assert ThemeStore.CurrentTheme(s) == Some(Dark);
    var theme := Some(ThemedRenderer.ThemeValue(Some(Dark.cssVars)));
    assert ThemedRenderer.ActiveTheme(RendererConfig(s)) == theme;
    assert ThemedRenderer.GetVar(theme, ThemedRenderer.PrimaryKey, ThemedRenderer.PrimaryFallback) == "#000000";
  }

  /**
    After selecting a known theme, connections are stroked with that theme's
    primary colour, or the built-in blue when it has none.
   */
  lemma SelectedThemeStrokesConnections(st: ThemeStore.Store, t: ThemeStore.Theme, node: ThemedRenderer.Node)
    requires t in st.state.themes && ThemeStore.UniqueIds(st.state.themes)
    ensures var r := ThemedRenderer.DrawConnection(
                       RendererConfig(ThemeStore.SetCurrentTheme(st, t.id).state), Some(node));
            && r.Some?
            && "stroke" in r.value.attrs
            && ("--pp-primary" in t.cssVars && t.cssVars["--pp-primary"] != "" ==>
                  r.value.attrs["stroke"] == t.cssVars["--pp-primary"])
            && (!("--pp-primary" in t.cssVars && t.cssVars["--pp-primary"] != "") ==>
                  r.value.attrs["stroke"] == "#2563eb")
  {
  }
}
