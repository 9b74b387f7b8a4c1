/** The directives a state handler can return. */
module FlowSpec {
  datatype Directive<+S> = Stay | Transition(next: S) | TransitionNow(next: S) | Done
}
