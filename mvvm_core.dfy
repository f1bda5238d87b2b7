/** The generic widget and binding layer: a button and a text box that are
    tied to one view-model type `VM` at construction. A closure over
    `&TViewModel` becomes a function value on `VM`; a closure over
    `&mut TViewModel` becomes a function from the old view model to the new
    one, paired with the `Result<(), String>` it returns. */
module MvvmCore {
  import opened Results
  import opened Decimal

  /** A text attribute of a widget and where its value comes from. */
  datatype ASString<!VM> =
    | Default
    | StaticString(s: string)
      /** read binding: rendered from the view model, possibly failing */
    | ViewModel2View(f: VM -> Result<string>)
      /** write binding: would flow from the view to the view model; not rendered */
    | View2ViewModel

  /** What the trait's default `perform_action` does: nothing. */
  function DefaultPerformAction<VM>(actionType: string, data: map<string, string>, vm: VM): (vm': VM)
    ensures vm' == vm
  {
    vm
  }

  datatype Button<!VM> = Button(
    widgetId: string,
    width: U32,
    height: U32,
    labelText: string,
    click: Option<VM -> (VM, Outcome)>)
  {
    /** Builder: installs the click callback and keeps every other field. */
    function Click(f: VM -> (VM, Outcome)): (b: Button<VM>)
      ensures b.click.Some? && b.click.value == f
      ensures b.widgetId == widgetId && b.width == width && b.height == height && b.labelText == labelText
    {
      this.(click := Some(f))
    }

    /** Runs the click callback on a "click" action when one is installed;
        the callback's result is dropped. Any other action is a no-op. */
    function PerformAction(actionType: string, data: map<string, string>, vm: VM): (vm': VM)
      ensures actionType == "click" && click.Some? ==> vm' == click.value(vm).0
      ensures actionType != "click" || click.None? ==> vm' == vm
    {
      match actionType
      case "click" =>
        (match click
         case Some(f) => var (next, _) := f(vm); next
         case None => vm)
      case _ => vm
    }

    function GetWidgetId(): (id: string)
      ensures id == widgetId
    {
      widgetId
    }

    /** The fixed properties, rendered without looking at the view model. */
    function GetWidgetParameters(vm: VM): (p: map<string, string>)
      ensures p.Keys == {"width", "height", "label"}
      ensures p["width"] == NatToString(width as nat) && p["height"] == NatToString(height as nat)
      ensures p["label"] == labelText
    {
      map["width" := NatToString(width as nat),
          "height" := NatToString(height as nat),
          "label" := labelText]
    }
  }

  /** A 50 by 50 button labelled "Button" with no click callback. */
  function NewButton<VM>(widgetId: string): (b: Button<VM>)
    ensures b.widgetId == widgetId && b.width == 50 && b.height == 50
    ensures b.labelText == "Button" && b.click.None?
  {
    Button(widgetId, 50, 50, "Button", None)
  }

  datatype TextBox<!VM> = TextBox(widgetId: string, content: ASString<VM>)
  {
    /** Builder: replaces the content binding and keeps the widget id. */
    function Content(c: ASString<VM>): (t: TextBox<VM>)
      ensures t.content == c && t.widgetId == widgetId
    {
      this.(content := c)
    }

    /** A text box has no action of its own: the trait's default applies. */
    function PerformAction(actionType: string, data: map<string, string>, vm: VM): (vm': VM)
      ensures vm' == vm
    {
      DefaultPerformAction(actionType, data, vm)
    }

    function GetWidgetId(): (id: string)
      ensures id == widgetId
    {
      widgetId
    }

    /** Renders the single attribute "content". A failing read binding
        degrades to an error message instead of failing the render. */
    function GetWidgetParameters(vm: VM): (p: map<string, string>)
      ensures p.Keys == {"content"}
      ensures content.Default? ==> p["content"] == ""
      ensures content.StaticString? ==> p["content"] == content.s
      ensures content.ViewModel2View? && content.f(vm).Ok? ==> p["content"] == content.f(vm).value
      ensures content.ViewModel2View? && content.f(vm).Err? ==> p["content"] == "Error : " + content.f(vm).error
      ensures content.View2ViewModel? ==> p["content"] == "unknown"
    {
      var text := match content
        case Default => ""
        case StaticString(s) => s
        case ViewModel2View(f) =>
          (match f(vm)
           case Ok(res) => res
           case Err(err) => "Error : " + err)
        case View2ViewModel => "unknown";
      map["content" := text]
    }
  }

  /** An empty text box (content `Default`). */
  function NewTextBox<VM>(widgetId: string): (t: TextBox<VM>)
    ensures t.widgetId == widgetId && t.content.Default?
  {
    TextBox(widgetId, Default)
  }

  /** A fresh button renders exactly width 50, height 50, label "Button". */
  lemma NewButtonParameters<VM>(widgetId: string, vm: VM)
    ensures NewButton<VM>(widgetId).GetWidgetParameters(vm)
            == map["width" := "50", "height" := "50", "label" := "Button"]
  {
    FiftyRendersAsFifty();
  }

  /** A button's rendering does not depend on the view model. */
  lemma ButtonIgnoresViewModel<VM>(b: Button<VM>, vm1: VM, vm2: VM)
    ensures b.GetWidgetParameters(vm1) == b.GetWidgetParameters(vm2)
  {
  }

  /** Constant and empty contents render the same for every view model;
      only a read binding consults it. */
  lemma TextBoxStaticIgnoresViewModel<VM>(t: TextBox<VM>, vm1: VM, vm2: VM)
    requires !t.content.ViewModel2View?
    ensures t.GetWidgetParameters(vm1) == t.GetWidgetParameters(vm2)
  {
  }

  /** Installing a callback and clicking runs exactly that callback. */
  lemma ClickThenPerform<VM>(b: Button<VM>, f: VM -> (VM, Outcome), data: map<string, string>, vm: VM)
    ensures b.Click(f).PerformAction("click", data, vm) == f(vm).0
  {
  }

  /** A button without a callback never changes the view model. */
  lemma NewButtonIsInert<VM>(widgetId: string, actionType: string, data: map<string, string>, vm: VM)
    ensures NewButton<VM>(widgetId).PerformAction(actionType, data, vm) == vm
  {
  }
}
