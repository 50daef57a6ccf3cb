/** The linear optical model: a store of optical sensitivities and a rigid body motion
    time series, and the optical metrics computed from them. */
module Lom {
  import opened Errors
  import opened DenseMatrix
  import opened OpticalSensitivities
  import opened Motions
  import Wavefronts

  /** `sens[key].into_optics(rbm.data())`: the lookup panics first, then the response. */
  function Response(store: seq<Sensitivity>, key: Sensitivity, rbm: Matrix): Result<seq<real>>
  {
    var s :- Index(store, key);
    Optics(s, rbm)
  }

  /** Some entry of the store has the variant of `key`. */
  predicate Holds(store: seq<Sensitivity>, key: Sensitivity)
  {
    exists j :: 0 <= j < |store| && Tag(store[j]) == Tag(key)
  }

  /** The entry found for a tip-tilt, segment tip-tilt or segment piston key has the
      key's number of rows. */
  lemma SameRows(a: Sensitivity, b: Sensitivity)
    requires Tag(a) == Tag(b) && !a.Wavefront?
    ensures Rows(a) == Rows(b)
  {
  }

  /** For the three implemented variants: the response exists exactly when the store holds
      that variant with a `Rows × 84` payload and the motions have 84 rows, and then it
      holds `Rows` values per time sample. */
  lemma ResponseOk(store: seq<Sensitivity>, key: Sensitivity, rbm: Matrix)
    requires key.TipTilt? || key.SegmentTipTilt? || key.SegmentPiston?
    ensures Index(store, key).Ok? <==> Holds(store, key)
    ensures Response(store, key, rbm).Ok?
      <==> Index(store, key).Ok? && |Index(store, key).value.values| == Rows(key) * N && rbm.nrows == N
    ensures Response(store, key, rbm).Ok? ==> |Response(store, key, rbm).value| == Rows(key) * rbm.ncols
  {
    if Index(store, key).Ok? {
      SameRows(Index(store, key).value, key);
    } else {
      assert !Holds(store, key);
    }
  }

  /** Value `i` of time sample `t` is row `i` of the stored sensitivity applied to the
      motions of sample `t`. */
  lemma ResponseAt(store: seq<Sensitivity>, key: Sensitivity, rbm: Matrix, i: nat, t: nat)
    requires key.TipTilt? || key.SegmentTipTilt? || key.SegmentPiston?
    requires Response(store, key, rbm).Ok? && i < Rows(key) && t < rbm.ncols
    ensures Index(store, key).Ok? && |Index(store, key).value.values| == Rows(key) * N && rbm.nrows == N
    ensures t * Rows(key) + i < |Response(store, key, rbm).value|
    ensures Response(store, key, rbm).value[t * Rows(key) + i]
      == SensDot(Index(store, key).value.values, Rows(key), i, rbm, t, N)
  {
    ResponseOk(store, key, rbm);
    SameRows(Index(store, key).value, key);
    OpticsAt(Index(store, key).value, rbm, i, t);
  }

  /** The reason the masked wavefront always panics: the lookup fails when there is no
      `Wavefront` entry, and `into_optics` has no `Wavefront` arm when there is one. */
  function WavefrontFault(store: seq<Sensitivity>): PanicReason
  {
    if exists j :: 0 <= j < |store| && store[j].Wavefront? then Unimplemented else NoMatch
  }

  /** `to_mas` applied to every value of a response. */
  function MapValues(r: Result<seq<real>>, f: real -> real): (m: Result<seq<real>>)
    ensures m.Ok? <==> r.Ok?
    ensures r.Err? ==> m == Err(r.fault)
    ensures r.Ok? ==> |m.value| == |r.value| && forall k :: 0 <= k < |r.value| ==> m.value[k] == f(r.value[k])
  {
    var v :- r;
    Ok(seq(|v|, k requires 0 <= k < |v| => f(v[k])))
  }

  class LOM {
    const sens: seq<Sensitivity>
    var rbm: RigidBodyMotions

    constructor (sens: seq<Sensitivity>, rbm: RigidBodyMotions)
      ensures this.sens == sens && this.rbm == rbm
    {
      this.sens := sens;
      this.rbm := rbm;
    }

    /** `latex`: only the display format changes. */
    method Latex()
      modifies this
      ensures rbm == old(rbm).(format := Formatting.Latex)
    {
      rbm := rbm.(format := Formatting.Latex);
    }

    /** `adhoc`: only the display format changes. */
    method AdHoc()
      modifies this
      ensures rbm == old(rbm).(format := Formatting.AdHoc)
    {
      rbm := rbm.(format := Formatting.AdHoc);
    }

    /** The number of motion samples. */
    function Len(): nat
      reads this
    {
      Samples(rbm)
    }

    function IsEmpty(): bool
      reads this
    {
      Len() == 0
    }

    /** A model without samples produces empty responses; one with samples and a tip-tilt
        response has a non-empty one. */
    lemma EmptyResponses(key: Sensitivity)
      requires Response(sens, key, rbm.data).Ok?
      ensures IsEmpty() <==> Response(sens, key, rbm.data).value == []
    {
      var s := Index(sens, key).value;
      assert |Optics(s, rbm.data).value| == Rows(s) * Len();
      assert Rows(s) > 0 by {
        assert s.TipTilt? || s.SegmentTipTilt? || s.SegmentPiston?;
      }
    }

    /** `tiptilt`: the pupil average tip and tilt, `[x, y]` for each sample. */
    function TipTilt(): (r: Result<seq<real>>)
      reads this
      ensures r.Ok? ==> |r.value| == 2 * Len()
      ensures r.Err? && Holds(sens, OpticalSensitivities.TipTilt([])) ==> r == Err(Panic(ShapeMismatch)) || r == Err(Panic(DimensionMismatch))
      ensures !Holds(sens, OpticalSensitivities.TipTilt([])) ==> r == Err(Panic(NoMatch))
    {
      ResponseOk(sens, OpticalSensitivities.TipTilt([]), rbm.data);
      Response(sens, OpticalSensitivities.TipTilt([]), rbm.data)
    }

    /** `tiptilt_mas`: the tip-tilt with every value converted by `toMas`. */
    function TipTiltMas(toMas: real -> real): (r: Result<seq<real>>)
      reads this
      ensures r.Ok? <==> TipTilt().Ok?
      ensures r.Ok? ==> |r.value| == 2 * Len()
      ensures r.Ok? ==> forall k :: 0 <= k < |r.value| ==> r.value[k] == toMas(TipTilt().value[k])
    {
      MapValues(TipTilt(), toMas)
    }

    /** `segment_piston`: the piston of the 7 segments for each sample. */
    function SegmentPiston(): (r: Result<seq<real>>)
      reads this
      ensures r.Ok? ==> |r.value| == 7 * Len()
      ensures r.Err? && Holds(sens, OpticalSensitivities.SegmentPiston([])) ==> r == Err(Panic(ShapeMismatch)) || r == Err(Panic(DimensionMismatch))
      ensures !Holds(sens, OpticalSensitivities.SegmentPiston([])) ==> r == Err(Panic(NoMatch))
    {
      ResponseOk(sens, OpticalSensitivities.SegmentPiston([]), rbm.data);
      Response(sens, OpticalSensitivities.SegmentPiston([]), rbm.data)
    }

    /** `segment_tiptilt`: the 7 segment tips then the 7 segment tilts for each sample. */
    function SegmentTipTilt(): (r: Result<seq<real>>)
      reads this
      ensures r.Ok? ==> |r.value| == 14 * Len()
      ensures r.Err? && Holds(sens, OpticalSensitivities.SegmentTipTilt([])) ==> r == Err(Panic(ShapeMismatch)) || r == Err(Panic(DimensionMismatch))
      ensures !Holds(sens, OpticalSensitivities.SegmentTipTilt([])) ==> r == Err(Panic(NoMatch))
    {
      ResponseOk(sens, OpticalSensitivities.SegmentTipTilt([]), rbm.data);
      Response(sens, OpticalSensitivities.SegmentTipTilt([]), rbm.data)
    }

    /** `segment_tiptilt_mas`: the segment tip-tilt with every value converted by `toMas`. */
    function SegmentTipTiltMas(toMas: real -> real): (r: Result<seq<real>>)
      reads this
      ensures r.Ok? <==> SegmentTipTilt().Ok?
      ensures r.Ok? ==> |r.value| == 14 * Len()
      ensures r.Ok? ==> forall k :: 0 <= k < |r.value| ==> r.value[k] == toMas(SegmentTipTilt().value[k])
    {
      MapValues(SegmentTipTilt(), toMas)
    }

    /** `masked_wavefront`: always panics, since `into_optics` has no `Wavefront` arm. */
    function MaskedWavefront(): (r: Result<seq<real>>)
      reads this
      ensures r == Err(Panic(WavefrontFault(sens)))
    {
      var key := OpticalSensitivities.Wavefront([]);
      if Index(sens, key).Ok? then
        assert Tag(Index(sens, key).value) == 0;
        Response(sens, key, rbm.data)
      else
        Response(sens, key, rbm.data)
    }

    /** `segment_wavefront`: the wavefront is computed before the segment mask is looked
        up, so it panics like `masked_wavefront`. */
    method SegmentWavefront() returns (r: Result<seq<seq<real>>>)
      ensures r == Err(Panic(WavefrontFault(sens)))
    {
      r := Wavefronts.SegmentWavefrontOf(MaskedWavefront(), Index(sens, SegmentMask([])));
    }

    /** `segment_wfe_rms::<E>`: panics like `masked_wavefront`, which it calls first. */
    function SegmentWfeRms(e: int, sqrt: real -> real): (r: Result<seq<real>>)
      reads this
      ensures r == Err(Panic(WavefrontFault(sens)))
    {
      Wavefronts.WfeRmsOf(MaskedWavefront(), Index(sens, SegmentMask([])), e, sqrt)
    }

    /** `wavefront`: panics like `masked_wavefront`, before the pupil mask lookup (which
        could not succeed either, `PupilMask` equalling nothing). */
    method Wavefront() returns (r: Result<seq<real>>)
      ensures r == Err(Panic(WavefrontFault(sens)))
    {
      r := Wavefronts.FullPupilOf(MaskedWavefront(), Index(sens, PupilMask([])));
    }
  }
}
