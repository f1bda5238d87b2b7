/** The concrete resource: a view model holding a counter, a view made of a
    text box and a button whose click adds one to the counter, and the
    resource manager that owns both. */
module UserExample {
  import opened Results
  import opened Decimal

  /** The view model's private state. */
  datatype ViewModel = ViewModel(viewmodelId: string, customNumber: U32)

  /** A binding callback: receives the view model, returns the new view model
      and the callback's `Result<(), String>`. */
  type BindingFn = ViewModel -> (ViewModel, Outcome)

  /** A fresh view model under the given (randomly drawn) id, counter 0. */
  function NewViewModel(viewmodelId: string): (vm: ViewModel)
    ensures vm.viewmodelId == viewmodelId && vm.customNumber == 0
  {
    ViewModel(viewmodelId, 0)
  }

  /** The button's click callback: `custom_number += 1` on a `u32`, always
      reporting success. At `u32::MAX` the increment wraps. */
  function AddValue(vm: ViewModel): (r: (ViewModel, Outcome))
    ensures r.1 == Pass
    ensures r.0.viewmodelId == vm.viewmodelId
    ensures r.0.customNumber as int == (vm.customNumber as int + 1) % 0x1_0000_0000
  {
    var next := if vm.customNumber == MaxU32 then 0 else vm.customNumber + 1;
    (vm.(customNumber := next), Pass)
  }

  datatype Widget =
    | Button(widgetId: string, width: U32, height: U32, labelText: string, click: Option<BindingFn>)
    | TextBox(widgetId: string, content: string)
  {
    /** The callback bound to an action type: a button binds only "click";
        a text box binds nothing. */
    function GetBindingFunction(actionType: string): (f: Option<BindingFn>)
      ensures Button? && actionType == "click" ==> f == click
      ensures !Button? || actionType != "click" ==> f.None?
    {
      match this
      case Button(_, _, _, _, click) => if actionType == "click" then click else None
      case TextBox(_, _) => None
    }

    function GetWidgetId(): (id: string)
      ensures id == widgetId
    {
      widgetId
    }

    /** The widget's rendered attributes; neither kind reads the view model. */
    function GetWidgetParameters(): (p: map<string, string>)
      ensures Button? ==> p.Keys == {"width", "height", "label"}
      ensures Button? ==> p["width"] == NatToString(width as nat) && p["height"] == NatToString(height as nat)
      ensures Button? ==> p["label"] == labelText
      ensures TextBox? ==> p == map["content" := content]
    {
      match this
      case Button(_, width, height, labelText, _) =>
        map["width" := NatToString(width as nat),
            "height" := NatToString(height as nat),
            "label" := labelText]
      case TextBox(_, content) => map["content" := content]
    }
  }

  /** `Button::new`: 50 by 50, labelled "Button", no callback. */
  function NewButton(widgetId: string): (w: Widget)
    ensures w.Button? && w.widgetId == widgetId && w.width == 50 && w.height == 50
    ensures w.labelText == "Button" && w.click.None?
  {
    Button(widgetId, 50, 50, "Button", None)
  }

  /** `Button::new_with_click`: as `NewButton`, with the callback installed. */
  function NewButtonWithClick(widgetId: string, clickFn: BindingFn): (w: Widget)
    ensures w.Button? && w.widgetId == widgetId && w.width == 50 && w.height == 50
    ensures w.labelText == "Button" && w.click.Some? && w.click.value == clickFn
  {
    Button(widgetId, 50, 50, "Button", Some(clickFn))
  }

  /** `TextBox::new`: empty content. */
  function NewTextBox(widgetId: string): (w: Widget)
    ensures w.TextBox? && w.widgetId == widgetId && w.content == ""
  {
    TextBox(widgetId, "")
  }

  /** A view is a lookup table from widget id to widget, fixed once built. */
  datatype View = View(widgets: map<string, Widget>)

  /** `ExampleView::new`: inserts the widgets in list order under their own
      ids, so that of two widgets sharing an id the later one is kept. */
  method NewView(userWidgets: seq<Widget>) returns (v: View)
    ensures v.widgets.Keys == set i | 0 <= i < |userWidgets| :: userWidgets[i].widgetId
    ensures forall id :: id in v.widgets ==> v.widgets[id].widgetId == id
    ensures forall i :: 0 <= i < |userWidgets| ==>
              (forall j :: i < j < |userWidgets| ==> userWidgets[j].widgetId != userWidgets[i].widgetId) ==>
              v.widgets[userWidgets[i].widgetId] == userWidgets[i]
  {
    var widgets: map<string, Widget> := map[];
    for n := 0 to |userWidgets|
      invariant widgets.Keys == set i | 0 <= i < n :: userWidgets[i].widgetId
      invariant forall id :: id in widgets ==> widgets[id].widgetId == id
      invariant forall i :: 0 <= i < n ==>
                  (forall j :: i < j < n ==> userWidgets[j].widgetId != userWidgets[i].widgetId) ==>
                  widgets[userWidgets[i].widgetId] == userWidgets[i]
    {
      var w := userWidgets[n];
      widgets := widgets[w.GetWidgetId() := w];
    }
    v := View(widgets);
  }

  /** The render of a view: each widget id mapped to that widget's attributes. */
  function Render(view: View): (r: map<string, map<string, string>>)
  {
    map id | id in view.widgets :: view.widgets[id].GetWidgetParameters()
  }

  /** What `perform_action` does to the view model: look the widget up, ask
      it for the callback bound to the action type and run it, dropping its
      result; an unknown widget or an unbound action changes nothing. */
  function ActionEffect(view: View, vm: ViewModel, widgetId: string, actionType: string): (vm': ViewModel)
  {
    if widgetId !in view.widgets then vm
    else match view.widgets[widgetId].GetBindingFunction(actionType)
      case None => vm
      case Some(f) => f(vm).0
  }

  /** The view `ExampleResourceManager::new` builds: a text box, then a
      button that runs `AddValue` on click. */
  function ExampleView(textBoxId: string, buttonId: string): (v: View)
  {
    View(map[textBoxId := NewTextBox(textBoxId)][buttonId := NewButtonWithClick(buttonId, AddValue)])
  }

  /** An action addressed to a widget id the view does not hold leaves the
      view model as it was. */
  lemma UnknownWidgetIsNoop(view: View, vm: ViewModel, widgetId: string, actionType: string)
    requires widgetId !in view.widgets
    ensures ActionEffect(view, vm, widgetId, actionType) == vm
  {
  }

  /** A text box binds no action, so acting on one changes nothing. */
  lemma TextBoxActionIsNoop(view: View, vm: ViewModel, widgetId: string, actionType: string)
    requires widgetId in view.widgets && view.widgets[widgetId].TextBox?
    ensures ActionEffect(view, vm, widgetId, actionType) == vm
  {
  }

  /** Clicking the example button adds one to the counter (modulo 2^32) and
      keeps the view model id. */
  lemma ExampleClickAddsOne(textBoxId: string, buttonId: string, vm: ViewModel)
    ensures ActionEffect(ExampleView(textBoxId, buttonId), vm, buttonId, "click") == AddValue(vm).0
    ensures vm.customNumber < MaxU32 ==>
              ActionEffect(ExampleView(textBoxId, buttonId), vm, buttonId, "click").customNumber
              == vm.customNumber + 1
  {
  }

  /** Every action other than a click on the example button leaves the view
      model unchanged. */
  lemma ExampleOtherActionsAreNoops(textBoxId: string, buttonId: string, vm: ViewModel,
                                    widgetId: string, actionType: string)
    requires widgetId != buttonId || actionType != "click"
    ensures ActionEffect(ExampleView(textBoxId, buttonId), vm, widgetId, actionType) == vm
  {
  }

  /** No action on the example resource changes its view model id. */
  lemma ExampleActionKeepsId(textBoxId: string, buttonId: string, vm: ViewModel,
                             widgetId: string, actionType: string)
    ensures ActionEffect(ExampleView(textBoxId, buttonId), vm, widgetId, actionType).viewmodelId
            == vm.viewmodelId
  {
  }

  /** The example view renders an empty text box and a 50 by 50 button,
      whatever the view model holds. */
  lemma ExampleRender(textBoxId: string, buttonId: string)
    requires textBoxId != buttonId
    ensures Render(ExampleView(textBoxId, buttonId))
            == map[textBoxId := map["content" := ""],
                   buttonId := map["width" := "50", "height" := "50", "label" := "Button"]]
  {
    FiftyRendersAsFifty();
    var r := Render(ExampleView(textBoxId, buttonId));
    assert r[buttonId] == map["width" := "50", "height" := "50", "label" := "Button"];
  }

  /** The resource: one view model and the view over it. Only the view model
      changes after construction. */
  class ExampleResourceManager {
    var viewmodel: ViewModel
    const view: View
    /** The widget ids drawn at construction. */
    ghost const textBoxId: string
    ghost const buttonId: string

    /** The view is the example view over the two widget ids, as every
        resource the constructor makes has it. */
    ghost predicate Built()
    {
      view == ExampleView(textBoxId, buttonId)
    }

    /** `ExampleResourceManager::new`, with the three random ids it draws
        (text box, button, view model) passed in. */
    constructor (textBoxId: string, buttonId: string, viewmodelId: string)
      ensures viewmodel == NewViewModel(viewmodelId)
      ensures view == ExampleView(textBoxId, buttonId)
      ensures this.textBoxId == textBoxId && this.buttonId == buttonId && Built()
    {
      var userWidgets := [NewTextBox(textBoxId), NewButtonWithClick(buttonId, AddValue)];
      var v := NewView(userWidgets);
      assert userWidgets[1].widgetId == buttonId;
      assert v.widgets == ExampleView(textBoxId, buttonId).widgets by {
        if textBoxId != buttonId {
          assert userWidgets[0].widgetId == textBoxId;
        }
      }
      viewmodel := NewViewModel(viewmodelId);
      view := v;
      this.textBoxId := textBoxId;
      this.buttonId := buttonId;
    }

    /** `get_viewmodel_id`: the id of the view model this resource owns. */
    function GetViewmodelId(): (id: string)
      reads this
      ensures id == viewmodel.viewmodelId
    {
      viewmodel.viewmodelId
    }

    /** `get_widgets_data`: renders every widget of the view, keyed by id. */
    method GetWidgetsData() returns (data: map<string, map<string, string>>)
      ensures data.Keys == view.widgets.Keys
      ensures forall id :: id in data ==> data[id] == view.widgets[id].GetWidgetParameters()
    {
      data := map[];
      var pending := view.widgets.Keys;
      while pending != {}
        invariant pending <= view.widgets.Keys
        invariant data.Keys == view.widgets.Keys - pending
        invariant forall id :: id in data ==> data[id] == view.widgets[id].GetWidgetParameters()
        decreases pending
      {
        var id :| id in pending;
        data := data[id := view.widgets[id].GetWidgetParameters()];
        pending := pending - {id};
      }
    }

    /** `perform_action`: updates the view model as `ActionEffect` says. The
        payload is accepted and ignored. */
    method PerformAction(widgetId: string, actionType: string, data: map<string, string>)
      modifies this
      ensures viewmodel == ActionEffect(view, old(viewmodel), widgetId, actionType)
      ensures Built() ==> viewmodel.viewmodelId == old(viewmodel).viewmodelId
      ensures Built() && widgetId == buttonId && actionType == "click" ==> viewmodel == AddValue(old(viewmodel)).0
      ensures Built() && (widgetId != buttonId || actionType != "click") ==> viewmodel == old(viewmodel)
    {
      if Built() {
        ExampleActionKeepsId(textBoxId, buttonId, viewmodel, widgetId, actionType);
        ExampleClickAddsOne(textBoxId, buttonId, viewmodel);
        if widgetId != buttonId || actionType != "click" {
          ExampleOtherActionsAreNoops(textBoxId, buttonId, viewmodel, widgetId, actionType);
        }
      }
      if widgetId in view.widgets {
        var binding := view.widgets[widgetId].GetBindingFunction(actionType);
        if binding.Some? {
          var (next, _) := binding.value(viewmodel);
          viewmodel := next;
        }
      }
    }
  }
}
