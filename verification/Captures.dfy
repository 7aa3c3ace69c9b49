/** The prepared source point that the mirror hands to canonical capture. */
module Captures {
  import opened Wrappers

  datatype SourceCursor = SourceCursor(identity: string, wal: string)

  /** What a policy recovery remembers of the point it replaces. */
  datatype Recovery = Recovery(capture: Capture, fileName: string, binding: string)

  datatype Context = Context(fields: map<string, string>, rebaseRequired: bool, reconciled: bool, recovery: Option<Recovery>)

  datatype Capture = Capture(token: string, parent: Option<string>, cursor: SourceCursor, schemaVersion: int, namespace: string,
                             policyTag: string, observedAt: string, context: Context, baseline: bool, rowsChanged: nat)

  /** The canonical receipt of one capture: its binding and the digest of its complete run. */
  datatype Receipt = Receipt(binding: string, digest: string)

  /** The mirror's one state row. */
  datatype Point = Point(capture: Capture, acknowledged: bool, receipt: Option<Receipt>)

  datatype MirrorError = MirrorUnavailable

  function PendingPoint(state: Option<Point>): Option<Capture> {
    if state.Some? && !state.value.acknowledged then Some(state.value.capture) else None
  }

  predicate AcknowledgedAt(state: Option<Point>, token: string, namespace: string) {
    state.Some? && state.value.acknowledged && state.value.capture.token == token && state.value.capture.namespace == namespace
  }

  /** The point after a policy recovery: same source cut and parent, new token, full and not yet interpreted. */
  function Recovered(c: Capture, token: string, policyTag: string, fileName: string, binding: string): Capture {
    c.(token := token, policyTag := policyTag, baseline := true, rowsChanged := 0,
       context := c.context.(rebaseRequired := true, recovery := Some(Recovery(c, fileName, binding))))
  }
}
