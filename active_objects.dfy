// The interaction-mode part of tomviz's ActiveObjects singleton: three
// flags saying whether data sources may be translated, rotated or scaled
// interactively, and the data source interaction is fixed to. The signals
// are recorded in the order they are emitted; a data source is named by an
// id, with None for a null object.

module Interaction {
  import opened Wrappers

  datatype Signal =
    | TranslationStateChanged(enabled: bool)
    | RotationStateChanged(enabled: bool)
    | ScalingStateChanged(enabled: bool)
    | InteractionDataSourceFixed(source: Option<nat>)

  /** What a guarded setter emits: its new value, as `signal` announces it, when it changes the flag; nothing otherwise. */
  function Change(current: bool, b: bool, signal: bool -> Signal): seq<Signal>
  {
    if current == b then [] else [signal(b)]
  }

  /** Setting a flag to the value it already has emits nothing, so a second identical call is silent. */
  lemma ChangeSpec(current: bool, b: bool, signal: bool -> Signal)
    ensures |Change(current, b, signal)| <= 1
    ensures Change(current, b, signal) == [] <==> current == b
    ensures Change(current, b, signal) != [] ==> Change(current, b, signal) == [signal(b)]
    ensures Change(b, b, signal) == []
  {
  }

  class ActiveObjects {
    var translationEnabled: bool
    var rotationEnabled: bool
    var scalingEnabled: bool
    var fixedInteractionDataSource: Option<nat>
    /** The signals emitted so far, oldest first. */
    var emitted: seq<Signal>

    constructor ()
      ensures !translationEnabled && !rotationEnabled && !scalingEnabled
      ensures fixedInteractionDataSource == None && emitted == []
    {
      translationEnabled := false;
      rotationEnabled := false;
      scalingEnabled := false;
      fixedInteractionDataSource := None;
      emitted := [];
    }

    method EnableTranslation(b: bool)
      modifies this
      ensures translationEnabled == b
      ensures emitted == old(emitted) + Change(old(translationEnabled), b, x => TranslationStateChanged(x))
      ensures rotationEnabled == old(rotationEnabled) && scalingEnabled == old(scalingEnabled)
      ensures fixedInteractionDataSource == old(fixedInteractionDataSource)
    {
      if translationEnabled == b {
        return;
      }
      translationEnabled := b;
      emitted := emitted + [TranslationStateChanged(b)];
    }

    method EnableRotation(b: bool)
      modifies this
      ensures rotationEnabled == b
      ensures emitted == old(emitted) + Change(old(rotationEnabled), b, x => RotationStateChanged(x))
      ensures translationEnabled == old(translationEnabled) && scalingEnabled == old(scalingEnabled)
      ensures fixedInteractionDataSource == old(fixedInteractionDataSource)
    {
      if rotationEnabled == b {
        return;
      }
      rotationEnabled := b;
      emitted := emitted + [RotationStateChanged(b)];
    }

    method EnableScaling(b: bool)
      modifies this
      ensures scalingEnabled == b
      ensures emitted == old(emitted) + Change(old(scalingEnabled), b, x => ScalingStateChanged(x))
      ensures translationEnabled == old(translationEnabled) && rotationEnabled == old(rotationEnabled)
      ensures fixedInteractionDataSource == old(fixedInteractionDataSource)
    {
      if scalingEnabled == b {
        return;
      }
      scalingEnabled := b;
      emitted := emitted + [ScalingStateChanged(b)];
    }

    /** setFixedInteractionDataSource: stored and announced every time, even when unchanged. */
    method SetFixedInteractionDataSource(ds: Option<nat>)
      modifies this
      ensures fixedInteractionDataSource == ds
      ensures emitted == old(emitted) + [InteractionDataSourceFixed(ds)]
      ensures translationEnabled == old(translationEnabled) && rotationEnabled == old(rotationEnabled)
      ensures scalingEnabled == old(scalingEnabled)
    {
      fixedInteractionDataSource := ds;
      emitted := emitted + [InteractionDataSourceFixed(ds)];
    }

    /** The three getters: the flags as last stored. */
    method InteractionFlags() returns (translation: bool, rotation: bool, scaling: bool)
      ensures translation == translationEnabled && rotation == rotationEnabled && scaling == scalingEnabled
    {
      translation, rotation, scaling := translationEnabled, rotationEnabled, scalingEnabled;
    }
  }
}
