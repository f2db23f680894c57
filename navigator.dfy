/**
 * Routing/Navigator.swift: the screen history of the app. Navigating
 * pushes a route on a history stack; navigating back pops it and returns to
 * the route below, or to the first route ever visited once the history is
 * used up.
 */
module Navigation {
  import opened Options
  import opened Stacks

  class Navigator<T> {
    const historyStack: Stack<T>
    var currentRoute: Option<T>
    var initialRoute: Option<T>

    /**
     * The current route is the top of the history, or the initial route
     * when the history is empty; before the first navigation there is
     * neither a history nor an initial route.
     */
    ghost predicate Valid()
      reads this, historyStack
    {
      (historyStack.elements != [] ==> currentRoute == Some(historyStack.elements[|historyStack.elements| - 1])) &&
      (historyStack.elements == [] ==> currentRoute == initialRoute) &&
      (initialRoute.None? ==> historyStack.elements == [])
    }

    constructor ()
      ensures Valid() && fresh(historyStack)
      ensures historyStack.elements == [] && currentRoute == None && initialRoute == None
    {
      historyStack := new Stack<T>();
      currentRoute := None;
      initialRoute := None;
    }

    /** Shows `route` and records it; the very first route becomes the initial route. */
    method NavigateTo(route: T)
      requires Valid()
      modifies this, historyStack
      ensures Valid()
      ensures currentRoute == Some(route)
      ensures historyStack.elements == old(historyStack.elements) + [route]
      ensures initialRoute == if old(initialRoute).None? then Some(route) else old(initialRoute)
    {
      currentRoute := Some(route);
      historyStack.Push(route);
      if initialRoute.None? {
        initialRoute := Some(route);
      }
    }

    /**
     * Drops the top of the history and shows the route below it, or the
     * initial route when nothing is left.
     */
    method NavigateBack()
      requires Valid()
      modifies this, historyStack
      ensures Valid()
      ensures old(historyStack.elements) == [] ==> historyStack.elements == []
      ensures old(historyStack.elements) != [] ==>
        historyStack.elements == old(historyStack.elements)[..|old(historyStack.elements)| - 1]
      ensures historyStack.elements != [] ==> currentRoute == Some(historyStack.elements[|historyStack.elements| - 1])
      ensures historyStack.elements == [] ==> currentRoute == initialRoute
      ensures initialRoute == old(initialRoute)
    {
      var _ := historyStack.Pop();
      var previousRoute := historyStack.Peek();
      if previousRoute.Some? {
        currentRoute := previousRoute;
      } else {
        currentRoute := initialRoute;
      }
    }
  }

  /** Going to `a`, then to `b`, then back shows `a` again. */
  method BackReturnsToPrevious<T>(a: T, b: T) returns (current: Option<T>)
    ensures current == Some(a)
  {
    var navigator := new Navigator<T>();
    navigator.NavigateTo(a);
    navigator.NavigateTo(b);
    navigator.NavigateBack();
    current := navigator.currentRoute;
  }

  /** Going back on a navigator that was never used shows no route. */
  method BackOnFreshNavigator<T>() returns (current: Option<T>)
    ensures current == None
  {
    var navigator := new Navigator<T>();
    navigator.NavigateBack();
    current := navigator.currentRoute;
  }

  /** Going back past the first route falls back to the initial route. */
  method BackPastFirstRoute<T>(a: T, b: T) returns (current: Option<T>)
    ensures current == Some(a)
  {
    var navigator := new Navigator<T>();
    navigator.NavigateTo(a);
    navigator.NavigateBack();
    navigator.NavigateTo(b);
    navigator.NavigateBack();
    current := navigator.currentRoute;
  }
}
