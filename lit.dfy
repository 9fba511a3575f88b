/**
 * The part of Lit's reactive-controller host protocol the bridge relies on
 * (`ReactiveControllerHost`): registering a controller and requesting an
 * update. Render scheduling and batching are the host's business and are
 * not modelled; the host only records what it was asked to do.
 */
module Lit {

  class Host {
    /** The controllers registered with `addController`, in registration order. */
    var controllers: seq<object>
    /** How many times `requestUpdate` has been called. */
    var updateRequests: nat

    constructor ()
      ensures controllers == [] && updateRequests == 0
    {
      controllers, updateRequests := [], 0;
    }

    /** `addController(controller)`. */
    method AddController(controller: object)
      modifies this`controllers
      ensures controllers == old(controllers) + [controller]
    {
      controllers := controllers + [controller];
    }

    /** `requestUpdate()`. */
    method RequestUpdate()
      modifies this`updateRequests
      ensures updateRequests == old(updateRequests) + 1
    {
      updateRequests := updateRequests + 1;
    }
  }
}
