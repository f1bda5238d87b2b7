/** The server's resource registry: a table from view model id to a slot that
    holds either an idle resource or the marker `Busy`, and the `view` and
    `action` request handlers that work on it. The table's mutex is held
    across the whole match in `action` and in `view` with an id, and only
    for the `insert` when `view` creates a resource, after the render of a
    resource no one else can see yet; so the handlers are modelled as
    sequential methods. */
module Registry {
  import Results
  import Decimal
  import opened UserExample

  /** `ResourceManagerState`. */
  datatype Slot = Idle(res: ExampleResourceManager) | Busy

  /** `BaseResponseBody`: the view model id and the render. */
  datatype ResponseBody = ResponseBody(viewmodelId: string, widgetsData: map<string, map<string, string>>)

  /** The HTTP responses the handlers produce. */
  datatype Response =
    | Ok(body: ResponseBody)
    | NotFound
    | TooManyRequests
    | InternalServerError(message: string)

  /** What an observer sees in one slot: the resource's state, or `Busy`. */
  datatype SlotState = IdleState(viewmodel: ViewModel, view: View) | BusyState

  /** `format!("{:?} busy", id)` for an id that `Debug` prints unescaped,
      such as a generated uuid. */
  function BusyMessage(viewmodelId: string): (m: string)
    ensures |m| == |viewmodelId| + 7
    ensures m[..1] == "\"" && m[1..|viewmodelId| + 1] == viewmodelId && m[|viewmodelId| + 1..] == "\" busy"
  {
    "\"" + viewmodelId + "\" busy"
  }

  /** `generate_base_response_body`: the resource's current render, tagged
      with the given id. */
  method GenerateBaseResponseBody(resourceManager: ExampleResourceManager, viewmodelId: string)
    returns (body: ResponseBody)
    ensures body.viewmodelId == viewmodelId
    ensures body.widgetsData == Render(resourceManager.view)
  {
    var widgetsData := resourceManager.GetWidgetsData();
    body := ResponseBody(viewmodelId, widgetsData);
  }

  class ResourceRegistry {
    var slots: map<string, Slot>
    /** The resources currently taken out of their slot by an operation. */
    ghost var lent: map<string, ExampleResourceManager>
    /** The id each resource is registered under; it witnesses that a
        resource sits in at most one place (the `Box` is uniquely owned). */
    ghost var owner: map<ExampleResourceManager, string>

    /** A slot is `Busy` exactly while its resource is lent out, every
        resource, idle or lent, belongs to exactly one id, and each holds
        the example view. */
    ghost predicate Valid()
      reads this
    {
      && lent.Keys <= slots.Keys
      && (forall id :: id in slots ==> (slots[id].Busy? <==> id in lent))
      && (forall id :: id in slots && slots[id].Idle? ==> slots[id].res in owner && owner[slots[id].res] == id)
      && (forall id :: id in lent ==> lent[id] in owner && owner[lent[id]] == id)
      && (forall rm {:trigger rm.Built()} :: rm in owner ==> rm.Built())
    }

    /** The resources held by idle slots. */
    ghost function Resources(): (rs: set<ExampleResourceManager>)
      reads this
    {
      set id | id in slots && slots[id].Idle? :: slots[id].res
    }

    /** The resource an operation on `id` may modify. */
    function Target(id: string): (t: set<ExampleResourceManager>)
      reads this
    {
      if id in slots && slots[id].Idle? then {slots[id].res} else {}
    }

    /** The table as an observer sees it. */
    ghost function State(): (st: map<string, SlotState>)
      reads this, Resources()
    {
      map id | id in slots ::
        if slots[id].Idle? then IdleState(slots[id].res.viewmodel, slots[id].res.view) else BusyState
    }

    /** The empty table the server starts with. */
    constructor ()
      ensures Valid() && slots == map[] && lent == map[]
    {
      slots := map[];
      lent := map[];
      owner := map[];
    }

    /** Between requests nothing is lent out, so no slot is left `Busy`. */
    lemma IdleWhenNothingLent()
      requires Valid() && lent == map[]
      ensures forall id :: id in slots ==> slots[id].Idle?
    {
    }

    /** First `mem::swap`: puts `Busy` into an existing slot and hands out
        what it held. */
    method Take(id: string) returns (previous: Slot)
      requires Valid() && id in slots
      modifies this
      ensures Valid()
      ensures previous == old(slots[id])
      ensures slots == old(slots)[id := Busy]
      ensures previous.Idle? ==> lent == old(lent)[id := previous.res]
      ensures previous.Busy? ==> lent == old(lent)
      ensures previous.Idle? ==> previous.res !in Resources()
    {
      previous := slots[id];
      slots := slots[id := Busy];
      if previous.Idle? {
        lent := lent[id := previous.res];
      }
    }

    /** Second `mem::swap`: returns the lent resource to its slot. */
    method PutBack(id: string, resourceManager: ExampleResourceManager)
      requires Valid() && id in lent && lent[id] == resourceManager
      modifies this
      ensures Valid()
      ensures slots == old(slots)[id := Idle(resourceManager)]
      ensures lent == old(lent) - {id}
    {
      slots := slots[id := Idle(resourceManager)];
      lent := lent - {id};
    }

    /** `view` without an id: builds a resource, renders it while it is still
        private, then registers it as idle under its view model id. */
    method Create(textBoxId: string, buttonId: string, viewmodelId: string) returns (resp: Response)
      requires Valid() && viewmodelId !in slots
      modifies this
      ensures Valid() && lent == old(lent)
      ensures viewmodelId in slots && slots[viewmodelId].Idle? && fresh(slots[viewmodelId].res)
      ensures slots == old(slots)[viewmodelId := slots[viewmodelId]]
      ensures slots.Keys == old(slots).Keys + {viewmodelId} && |slots| == |old(slots)| + 1
      ensures slots[viewmodelId].res.viewmodel == NewViewModel(viewmodelId)
      ensures slots[viewmodelId].res.view == ExampleView(textBoxId, buttonId)
      ensures resp == Ok(ResponseBody(viewmodelId, Render(ExampleView(textBoxId, buttonId))))
    {
      var resourceManager := new ExampleResourceManager(textBoxId, buttonId, viewmodelId);
      var id := resourceManager.GetViewmodelId();
      var body := GenerateBaseResponseBody(resourceManager, id);
      Register(id, resourceManager);
      resp := Ok(body);
    }

    /** The `insert` of `view`: a resource no slot knows of becomes idle
        under a new key. */
    method Register(id: string, resourceManager: ExampleResourceManager)
      requires Valid() && id !in slots && resourceManager !in owner && resourceManager.Built()
      modifies this
      ensures Valid() && lent == old(lent)
      ensures slots == old(slots)[id := Idle(resourceManager)]
      ensures slots.Keys == old(slots).Keys + {id} && |slots| == |old(slots)| + 1
    {
      slots := slots[id := Idle(resourceManager)];
      owner := owner[resourceManager := id];
    }

    /** `view` with an id: answers from the slot without changing it. */
    method ViewExisting(id: string) returns (resp: Response)
      ensures id !in slots ==> resp == NotFound
      ensures id in slots && slots[id].Busy? ==> resp == TooManyRequests
      ensures id in slots && slots[id].Idle? ==> resp == Ok(ResponseBody(id, Render(slots[id].res.view)))
    {
      if id !in slots {
        resp := NotFound;
      } else {
        match slots[id]
        case Busy =>
          resp := TooManyRequests;
        case Idle(resourceManager) =>
          var body := GenerateBaseResponseBody(resourceManager, id);
          resp := Ok(body);
      }
    }

    /** `view`: only the view name "example" exists; without an id it
        creates a resource, with one it answers from the slot. */
    method View(viewName: string, viewmodelId: Results.Option<string>,
                textBoxId: string, buttonId: string, newViewmodelId: string) returns (resp: Response)
      requires Valid()
      requires viewName == "example" && viewmodelId.None? ==> newViewmodelId !in slots
      modifies this
      ensures Valid() && lent == old(lent)
      ensures viewName != "example" ==> resp == NotFound && slots == old(slots)
      ensures viewName == "example" && viewmodelId.Some? ==>
                && slots == old(slots)
                && var id := viewmodelId.value;
                   && (id !in slots ==> resp == NotFound)
                   && (id in slots && slots[id].Busy? ==> resp == TooManyRequests)
                   && (id in slots && slots[id].Idle? ==> resp == Ok(ResponseBody(id, Render(slots[id].res.view))))
      ensures viewName == "example" && viewmodelId.None? ==>
                && newViewmodelId in slots && slots[newViewmodelId].Idle? && fresh(slots[newViewmodelId].res)
                && slots == old(slots)[newViewmodelId := slots[newViewmodelId]]
                && slots[newViewmodelId].res.viewmodel == NewViewModel(newViewmodelId)
                && slots[newViewmodelId].res.view == ExampleView(textBoxId, buttonId)
                && resp == Ok(ResponseBody(newViewmodelId, Render(ExampleView(textBoxId, buttonId))))
    {
      if viewName != "example" {
        resp := NotFound;
      } else {
        match viewmodelId
        case None =>
          resp := Create(textBoxId, buttonId, newViewmodelId);
        case Some(id) =>
          resp := ViewExisting(id);
      }
    }

    /** The idle-slot branch of `action`: between the two swaps the slot
        reads `Busy` and the resource is lent out; afterwards the same
        resource, acted upon, is idle in the slot again. */
    method Operate(id: string, widgetId: string, actionType: string, data: map<string, string>)
      returns (resp: Response)
      requires Valid() && id in slots && slots[id].Idle?
      modifies this, slots[id].res
      ensures Valid() && lent == old(lent) && slots == old(slots)
      ensures slots[id].res.viewmodel
              == ActionEffect(slots[id].res.view, old(slots[id].res.viewmodel), widgetId, actionType)
      ensures resp == Ok(ResponseBody(id, Render(slots[id].res.view)))
    {
      assert id !in lent;
      var operating := Take(id);
      if !operating.Idle? {
        // the `panic!()` branch: the slot was seen idle just above
        assert false;
      }
      var resourceManager := operating.res;
      resp := ActAndPutBack(id, resourceManager, widgetId, actionType, data);
      assert slots == old(slots)[id := Busy][id := Idle(resourceManager)];
      assert lent == old(lent)[id := resourceManager] - {id};
    }

    /** The rest of that branch, once the first swap has lent the resource
        out: act on it, render it, and swap it back. */
    method ActAndPutBack(id: string, resourceManager: ExampleResourceManager,
                         widgetId: string, actionType: string, data: map<string, string>)
      returns (resp: Response)
      requires Valid() && id in lent && lent[id] == resourceManager
      modifies this, resourceManager
      ensures Valid()
      ensures slots == old(slots)[id := Idle(resourceManager)] && lent == old(lent) - {id}
      ensures resourceManager.viewmodel
              == ActionEffect(resourceManager.view, old(resourceManager.viewmodel), widgetId, actionType)
      ensures resp == Ok(ResponseBody(id, Render(resourceManager.view)))
    {
      resourceManager.PerformAction(widgetId, actionType, data);
      var body := GenerateBaseResponseBody(resourceManager, id);
      PutBack(id, resourceManager);
      resp := Ok(body);
    }

    /** When only the resource in slot `id` may have changed, the observed
        table differs from the earlier one at `id` alone. */
    twostate lemma StateChangesOnlyAt(id: string)
      requires old(Valid()) && slots == old(slots) && id in slots && slots[id].Idle?
      requires forall j :: j in slots && j != id && slots[j].Idle? ==> unchanged(slots[j].res)
      ensures State() == old(State())[id := IdleState(slots[id].res.viewmodel, slots[id].res.view)]
    {
    }

    /** `action`: answers NotFound for an unknown id and a "busy" error for a
        busy slot, changing nothing; otherwise acts on the resource in place
        and answers with its new render. */
    method Action(id: string, widgetId: string, actionType: string, data: map<string, string>)
      returns (resp: Response)
      requires Valid()
      modifies this, Target(id)
      ensures Valid() && lent == old(lent)
      ensures slots == old(slots)
      ensures id !in slots ==> resp == NotFound && State() == old(State())
      ensures id in slots && slots[id].Busy? ==>
                resp == InternalServerError(BusyMessage(id)) && State() == old(State())
      ensures id in slots && slots[id].Idle? ==>
                && slots[id].res.viewmodel
                   == ActionEffect(slots[id].res.view, old(slots[id].res.viewmodel), widgetId, actionType)
                && slots[id].res.viewmodel.viewmodelId == old(slots[id].res.viewmodel.viewmodelId)
                && (widgetId == slots[id].res.buttonId && actionType == "click" ==>
                      slots[id].res.viewmodel == AddValue(old(slots[id].res.viewmodel)).0)
                && (widgetId != slots[id].res.buttonId || actionType != "click" ==>
                      slots[id].res.viewmodel == old(slots[id].res.viewmodel))
                && State() == old(State())[id := IdleState(slots[id].res.viewmodel, slots[id].res.view)]
                && resp == Ok(ResponseBody(id, Render(slots[id].res.view)))
    {
      if id !in slots {
        resp := NotFound;
      } else if slots[id].Busy? {
        resp := InternalServerError(BusyMessage(id));
      } else {
        var res := slots[id].res;
        ghost var before := res.viewmodel;
        assert res.Built();
        resp := Operate(id, widgetId, actionType, data);
        StateChangesOnlyAt(id);
        ExampleActionKeepsId(res.textBoxId, res.buttonId, before, widgetId, actionType);
        ExampleClickAddsOne(res.textBoxId, res.buttonId, before);
        if widgetId != res.buttonId || actionType != "click" {
          ExampleOtherActionsAreNoops(res.textBoxId, res.buttonId, before, widgetId, actionType);
        }
      }
    }
  }

  /** A session against a fresh registry: create the example view, view it
      again by id, click its button. The three answers carry the same render
      (the text box does not show the counter), and the counter ends at 1. */
  method ExampleSession(textBoxId: string, buttonId: string, viewmodelId: string)
    returns (created: Response, viewed: Response, clicked: Response, counter: Decimal.U32)
    requires textBoxId != buttonId
    ensures created == Ok(ResponseBody(viewmodelId,
              map[textBoxId := map["content" := ""],
                  buttonId := map["width" := "50", "height" := "50", "label" := "Button"]]))
    ensures viewed == created && clicked == created
    ensures counter == 1
  {
    var registry := new ResourceRegistry();
    created := registry.View("example", Results.None, textBoxId, buttonId, viewmodelId);
    viewed := registry.View("example", Results.Some(viewmodelId), textBoxId, buttonId, viewmodelId);
    clicked := registry.Action(viewmodelId, buttonId, "click", map[]);
    ExampleRender(textBoxId, buttonId);
    ExampleClickAddsOne(textBoxId, buttonId, NewViewModel(viewmodelId));
    counter := registry.slots[viewmodelId].res.viewmodel.customNumber;
  }

  /** The `Busy` branches of `view` and `action`, exercised by calling
      `Take` directly: a state the handlers never leave behind, since each
      keeps the table lock across both swaps. With the resource taken, a
      view is answered TooManyRequests and an action the "busy" error,
      neither changing the table; after `PutBack` the slot is idle and
      viewable again. */
  method ContendedSession(registry: ResourceRegistry, id: string, widgetId: string, actionType: string)
    returns (duringView: Response, duringAction: Response, afterView: Response)
    requires registry.Valid() && id in registry.slots && registry.slots[id].Idle?
    modifies registry
    ensures registry.Valid() && registry.slots == old(registry.slots)
    ensures duringView == TooManyRequests
    ensures duringAction == InternalServerError(BusyMessage(id))
    ensures afterView == Ok(ResponseBody(id, Render(registry.slots[id].res.view)))
  {
    var operating := registry.Take(id);
    ghost var taken := registry.slots;
    duringView, duringAction := RequestsWhileBusy(registry, id, widgetId, actionType);
    assert registry.slots == taken;
    registry.PutBack(id, operating.res);
    assert registry.slots == old(registry.slots);
    afterView := registry.ViewExisting(id);
  }

  /** A view and an action addressed to a `Busy` slot: TooManyRequests and
      the "busy" error, with the table left as it was. */
  method RequestsWhileBusy(registry: ResourceRegistry, id: string, widgetId: string, actionType: string)
    returns (viewed: Response, acted: Response)
    requires registry.Valid() && id in registry.slots && registry.slots[id].Busy?
    modifies registry
    ensures registry.Valid() && registry.slots == old(registry.slots) && registry.lent == old(registry.lent)
    ensures viewed == TooManyRequests
    ensures acted == InternalServerError(BusyMessage(id))
  {
    viewed := registry.ViewExisting(id);
    acted := registry.Action(id, widgetId, actionType, map[]);
  }

  /** Between handler calls nothing is lent out (the constructor starts so
      and every handler keeps `lent`), so the `Busy` answers of `view` and
      `action` cannot occur. */
  method BusyBranchesUnreachable(registry: ResourceRegistry, id: string, widgetId: string, actionType: string)
    returns (viewed: Response, acted: Response)
    requires registry.Valid() && registry.lent == map[]
    modifies registry, registry.Target(id)
    ensures registry.Valid() && registry.lent == map[]
    ensures viewed != TooManyRequests
    ensures !acted.InternalServerError?
  {
    registry.IdleWhenNothingLent();
    viewed := registry.ViewExisting(id);
    acted := registry.Action(id, widgetId, actionType, map[]);
  }
}
