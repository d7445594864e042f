/** The parts of the browser window the components read and subscribe to. */
module Browser {

  /** A registered event handler; each component mount registers its own closure. */
  type Handler = nat

  class Window {
    var innerWidth: int
    var innerHeight: real
    var scrollY: real
    /** The document's full scrollable height. */
    var scrollHeight: real
    var scrollListeners: set<Handler>
    var resizeListeners: set<Handler>

    constructor (width: int, height: real, pageHeight: real)
      ensures innerWidth == width && innerHeight == height && scrollHeight == pageHeight
      ensures scrollY == 0.0 && scrollListeners == {} && resizeListeners == {}
    {
      innerWidth, innerHeight, scrollHeight := width, height, pageHeight;
      scrollY := 0.0;
      scrollListeners, resizeListeners := {}, {};
    }

    /** Adds a scroll handler; adding a handler that is already there changes nothing. */
    method AddScrollListener(h: Handler)
      modifies this`scrollListeners
      ensures scrollListeners == old(scrollListeners) + {h}
    {
      scrollListeners := scrollListeners + {h};
    }

    /** Removes a scroll handler; removing one that is absent changes nothing. */
    method RemoveScrollListener(h: Handler)
      modifies this`scrollListeners
      ensures scrollListeners == old(scrollListeners) - {h}
    {
      scrollListeners := scrollListeners - {h};
    }

    method AddResizeListener(h: Handler)
      modifies this`resizeListeners
      ensures resizeListeners == old(resizeListeners) + {h}
    {
      resizeListeners := resizeListeners + {h};
    }

    method RemoveResizeListener(h: Handler)
      modifies this`resizeListeners
      ensures resizeListeners == old(resizeListeners) - {h}
    {
      resizeListeners := resizeListeners - {h};
    }
  }
}
