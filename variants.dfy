/** How the two front ends' angle policies relate: the web rules reject every
    angle the desktop band rejects, and in addition the two narrow bands
    [70, 75) and (135, 140]. */
module Variants {
  import WebApp
  import CoreEngine

  /** The web rules found a fault in the angle itself. */
  predicate WebAngleFault(p: WebApp.Pose)
  {
    WebApp.LookingUp in WebApp.Reasons(p) || WebApp.Slouching in WebApp.Reasons(p)
  }

  /** A desktop slouch is always a web angle fault, and the angles on which
      only the web variant complains are exactly [70, 75) and (135, 140]. */
  lemma AnglePoliciesCompared(p: WebApp.Pose)
    ensures CoreEngine.IsSlouch(p.verticalAngle) ==> WebAngleFault(p)
    ensures WebAngleFault(p) && !CoreEngine.IsSlouch(p.verticalAngle) <==>
      (70.0 <= p.verticalAngle < 75.0 || 135.0 < p.verticalAngle <= 140.0)
  {
    WebApp.ReasonsMatchRules(p);
  }
}
