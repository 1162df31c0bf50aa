/** The object structure `HashingModel.__init__` sets up: one
    `GlobalConceptLearning` instance held by both the image and the text
    field, so that both modalities project into the same concept space, and
    two separate `LocalConceptTransforming` instances, one per modality. Only
    the fields that say which parameters are shared are modelled. */
module HashingModel {

  /** `GlobalConceptLearning`: its concept count, its input width and the
      K x D weights of its bias-free concept projection. */
  class GlobalConceptLearning {
    var kConcept: nat
    var orgDim: nat
    var projection: seq<seq<real>>

    /** `init` stands for the random initial weights. */
    constructor (kConcept: nat, orgDim: nat, init: seq<seq<real>>)
      ensures this.kConcept == kConcept && this.orgDim == orgDim && projection == init
    {
      this.kConcept := kConcept;
      this.orgDim := orgDim;
      projection := init;
    }
  }

  /** `LocalConceptTransforming`: the slot count and the `top_k` its
      aggregation uses. */
  class LocalConceptTransforming {
    var kBits: nat
    var topK: int

    constructor (kBits: nat, topK: int)
      ensures this.kBits == kBits && this.topK == topK
    {
      this.kBits := kBits;
      this.topK := topK;
    }
  }

  class HashingModel {
    var kBits: nat
    var topKLabel: int
    var gclI: GlobalConceptLearning
    var gclT: GlobalConceptLearning
    var lctI: LocalConceptTransforming
    var lctT: LocalConceptTransforming

    /** The sharing invariant: one concept learner for both modalities, one
        local transformer each. */
    ghost predicate Valid()
      reads this
    {
      gclI == gclT && lctI != lctT
    }

    /** `self.gcl_i = self.gcl_t = GlobalConceptLearning(k_concept=k_bits, ...)`,
        then two `LocalConceptTransforming(..., k_bits=k_bits, top_k=top_k_label)`. */
    constructor (kBits: nat, embedDim: nat, topKLabel: int, init: seq<seq<real>>)
      ensures Valid()
      ensures fresh(gclI) && fresh(lctI) && fresh(lctT)
      ensures this.kBits == kBits && this.topKLabel == topKLabel
      ensures gclI.kConcept == kBits && gclI.orgDim == embedDim && gclI.projection == init
      ensures lctI.kBits == kBits && lctI.topK == topKLabel
      ensures lctT.kBits == kBits && lctT.topK == topKLabel
    {
      this.kBits := kBits;
      this.topKLabel := topKLabel;
      var shared := new GlobalConceptLearning(kBits, embedDim, init);
      gclI := shared;
      gclT := shared;
      lctI := new LocalConceptTransforming(kBits, topKLabel);
      lctT := new LocalConceptTransforming(kBits, topKLabel);
    }

    /** A change to the image branch's concept projection, as a training step
        makes it, is the same change to the text branch's: the two fields
        hold one object. The local transformers are not touched. */
    method SetImageConceptProjection(w: seq<seq<real>>)
      requires Valid()
      modifies gclI
      ensures Valid()
      ensures gclI.projection == w && gclT.projection == w
      ensures gclT.kConcept == old(gclT.kConcept) && gclT.orgDim == old(gclT.orgDim)
      ensures unchanged(lctI) && unchanged(lctT)
    {
      gclI.projection := w;
    }
  }
}
