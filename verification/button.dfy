/** The shared `Button` component. Its props arrive as one object; it
    destructures a few of them and spreads the rest onto the `<button>`
    after its own computed `disabled`, so the spread has the last word. */
module Button {
  import opened Js

  const BaseClass := "inline-flex items-center justify-center rounded-md font-medium transition-colors focus-visible:outline-none focus-visible:ring-2 focus-visible:ring-indigo-500 disabled:pointer-events-none disabled:opacity-50"

  const Variants: map<string, string> := map[
    "default" := "bg-indigo-600 text-white hover:bg-indigo-700 shadow-sm",
    "outline" := "border border-gray-300 bg-white text-gray-700 hover:bg-gray-50",
    "ghost" := "text-gray-600 hover:bg-gray-100 hover:text-gray-900",
    "danger" := "bg-red-500 text-white hover:bg-red-600"]

  const Sizes: map<string, string> := map[
    "default" := "h-10 px-4 py-2",
    "sm" := "h-8 px-3 text-xs",
    "lg" := "h-12 px-8 text-lg"]

  /** The props the component names in its parameter list; everything
      else stays in the rest object that is spread onto the element. */
  const Named: set<string> := {"className", "variant", "size", "isLoading", "children"}

  datatype Content = Spinner | Children(nodes: Value)

  /** `classArgs` are the arguments handed to the class-name combiner;
      `attributes` the props that reach the DOM element besides the class. */
  datatype Rendered = Rendered(
    classArgs: seq<Value>,
    attributes: map<string, Value>,
    disabled: bool,
    content: seq<Content>)

  function Prop(props: map<string, Value>, name: string): Value {
    if name in props then props[name] else Undefined
  }

  /** A parameter default: it applies when the prop is absent or undefined. */
  function WithDefault(v: Value, fallback: string): (r: Value)
    ensures v.Undefined? ==> r == Str(fallback)
    ensures !v.Undefined? ==> r == v
  {
    if v.Undefined? then Str(fallback) else v
  }

  /** `table[key]`: the listed class, or undefined for a key the table
      does not list. */
  function Lookup(table: map<string, string>, key: Value): (r: Value)
    ensures key.Str? && key.s in table <==> r.Str?
    ensures r.Str? ==> r.s == table[key.s]
  {
    if key.Str? && key.s in table then Str(table[key.s]) else Undefined
  }

  function Render(props: map<string, Value>): (r: Rendered)
    // a caller-supplied `disabled` decides, whatever `isLoading` says
    ensures "disabled" in props ==> r.disabled == Truthy(props["disabled"])
    ensures "disabled" !in props ==> r.disabled == Truthy(Prop(props, "isLoading"))
    // the spinner follows `isLoading` alone and precedes the children
    ensures Spinner in r.content <==> Truthy(Prop(props, "isLoading"))
    ensures |r.content| > 0 && r.content[|r.content| - 1] == Children(Prop(props, "children"))
    ensures forall i :: 0 <= i < |r.content| - 1 ==> r.content[i] == Spinner
    // class arguments: base, variant, size, caller's class, in that order
    ensures |r.classArgs| == 4 && r.classArgs[0] == Str(BaseClass) && r.classArgs[3] == Prop(props, "className")
    ensures r.classArgs[1] == Lookup(Variants, WithDefault(Prop(props, "variant"), "default"))
    ensures r.classArgs[2] == Lookup(Sizes, WithDefault(Prop(props, "size"), "default"))
    ensures Prop(props, "variant").Undefined? ==> r.classArgs[1] == Str(Variants["default"])
    ensures Prop(props, "size").Undefined? ==> r.classArgs[2] == Str(Sizes["default"])
    // a variant or size the tables do not list contributes no class
    ensures Prop(props, "variant").Str? && Prop(props, "variant").s !in Variants ==> r.classArgs[1] == Undefined
    ensures Prop(props, "size").Str? && Prop(props, "size").s !in Sizes ==> r.classArgs[2] == Undefined
    ensures forall k :: k in props && k !in Named ==> k in r.attributes && r.attributes[k] == props[k]
  {
    var variant := WithDefault(Prop(props, "variant"), "default");
    var size := WithDefault(Prop(props, "size"), "default");
    var isLoading := Prop(props, "isLoading");
    var rest := props - Named;
    var computed := map["disabled" := Or(isLoading, Prop(rest, "disabled"))];
    var attributes := computed + rest;
    Rendered(
      [Str(BaseClass), Lookup(Variants, variant), Lookup(Sizes, size), Prop(props, "className")],
      attributes,
      Truthy(attributes["disabled"]),
      (if Truthy(isLoading) then [Spinner] else []) + [Children(Prop(props, "children"))])
  }
}
